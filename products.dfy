/**
 * admin/products.php, the POST handlers (lines 28-172): the slug derived from a
 * product name, and the create, update and delete actions behind the CSRF check.
 */
module Products {
  import opened Wrappers
  import opened Php
  import opened Store
  import Functions

  // ---------------------------------------------------------------------------
  // The slug pipeline of lines 43-45

  /** `preg_replace('/[^a-zA-Z0-9]/', '-', s)`. The pattern works on bytes, so a
      multi-byte character becomes several hyphens; the collapse step below makes
      that the same as one hyphen per character. */
  function Dashed(s: string): (r: string)
    ensures |r| == |s|
  {
    seq(|s|, i requires 0 <= i < |s| => if IsAlnum(s[i]) then s[i] else '-')
  }

  /** `strtolower`, which is ASCII-only. */
  function Lowered(s: string): (r: string)
    ensures |r| == |s|
  {
    seq(|s|, i requires 0 <= i < |s| => Php.ToLower(s[i]))
  }

  /** The characters a slug may hold. */
  predicate SlugChar(c: char) {
    IsLower(c) || IsDigit(c) || c == '-'
  }

  predicate AllSlugChars(s: string) {
    forall i :: 0 <= i < |s| ==> SlugChar(s[i])
  }

  predicate NoDoubleHyphen(s: string) {
    forall i :: 0 <= i < |s| - 1 ==> !(s[i] == '-' && s[i + 1] == '-')
  }

  /** `preg_replace('/-+/', '-', s)`: every run of hyphens becomes one. */
  function Collapse(s: string): (r: string)
    ensures |r| <= |s|
    ensures |s| > 0 ==> |r| > 0 && r[0] == s[0]
    ensures AllSlugChars(s) ==> AllSlugChars(r)
    ensures NoDoubleHyphen(r)
  {
    if |s| <= 1 then s
    else if s[0] == '-' && s[1] == '-' then Collapse(s[1..])
    else [s[0]] + Collapse(s[1..])
  }

  /** The left half of `trim(s, '-')`. */
  function TrimHyphensLeft(s: string): (r: string)
    ensures |r| <= |s| && r == s[|s| - |r|..]
    ensures |r| > 0 ==> r[0] != '-'
    ensures AllSlugChars(s) ==> AllSlugChars(r)
    ensures NoDoubleHyphen(s) ==> NoDoubleHyphen(r)
  {
    if |s| > 0 && s[0] == '-' then TrimHyphensLeft(s[1..]) else s
  }

  /** The right half of `trim(s, '-')`. */
  function TrimHyphensRight(s: string): (r: string)
    ensures |r| <= |s| && r == s[..|r|]
    ensures |r| > 0 ==> r[|r| - 1] != '-'
    ensures AllSlugChars(s) ==> AllSlugChars(r)
    ensures NoDoubleHyphen(s) ==> NoDoubleHyphen(r)
  {
    if |s| > 0 && s[|s| - 1] == '-' then TrimHyphensRight(s[..|s| - 1]) else s
  }

  function Slugify(name: string): string {
    TrimHyphensRight(TrimHyphensLeft(Collapse(Lowered(Dashed(name)))))
  }

  /** What a generated slug looks like: lower-case letters, digits and single
      hyphens between them. */
  predicate WellFormedSlug(s: string) {
    && AllSlugChars(s)
    && NoDoubleHyphen(s)
    && (|s| > 0 ==> s[0] != '-' && s[|s| - 1] != '-')
  }

  /** Every generated slug is well formed. */
  lemma SlugWellFormed(name: string)
    ensures WellFormedSlug(Slugify(name))
  {
    var low := Lowered(Dashed(name));
    assert AllSlugChars(low) by {
      forall i | 0 <= i < |low|
        ensures SlugChar(low[i])
      {
        var d := Dashed(name)[i];
        assert IsAlnum(d) || d == '-';
      }
    }
    var r := TrimHyphensRight(TrimHyphensLeft(Collapse(low)));
    assert r == Slugify(name);
  }

  /** A sequence without double hyphens is its own collapse. */
  lemma {:induction false} CollapseKeeps(s: string)
    requires NoDoubleHyphen(s)
    ensures Collapse(s) == s
  {
    if |s| > 1 {
      assert NoDoubleHyphen(s[1..]) by {
        forall i | 0 <= i < |s[1..]| - 1
          ensures !(s[1..][i] == '-' && s[1..][i + 1] == '-')
        {
          assert s[1..][i] == s[i + 1] && s[1..][i + 1] == s[i + 2];
        }
      }
      CollapseKeeps(s[1..]);
      assert !(s[0] == '-' && s[1] == '-');
      assert [s[0]] + s[1..] == s;
    }
  }

  /** A well-formed slug passes through the pipeline unchanged. */
  lemma SlugifyKeepsWellFormed(w: string)
    requires WellFormedSlug(w)
    ensures Slugify(w) == w
  {
    var d := Dashed(w);
    forall i | 0 <= i < |w|
      ensures d[i] == w[i]
    {
      assert SlugChar(w[i]);
    }
    assert d == w;
    var l := Lowered(w);
    forall i | 0 <= i < |w|
      ensures l[i] == w[i]
    {
      assert SlugChar(w[i]);
    }
    assert l == w;
    CollapseKeeps(w);
    assert TrimHyphensLeft(w) == w;
    assert TrimHyphensRight(w) == w;
  }

  /** Slug generation is idempotent on its own output. */
  lemma SlugifyIdempotent(name: string)
    ensures Slugify(Slugify(name)) == Slugify(name)
  {
    SlugWellFormed(name);
    SlugifyKeepsWellFormed(Slugify(name));
  }

  // ---------------------------------------------------------------------------
  // The POST handlers

  datatype ProductAction =
    | Create(name: string, slug: string, description: string)
    | Update(productId: int, name: string, description: string)
    | Delete(productId: int)
    | OtherAction

  /** The entries of `$errors`, in the order the page collects them. */
  datatype ProductError = CsrfInvalid | NameEmpty | SlugEmpty | SlugExists | ProductInUse

  predicate SlugTaken(products: map<int, Product>, slug: string) {
    exists id :: id in products && products[id].slug == slug
  }

  /** Line 42: the slug is generated only when the given one is empty and the name
      is not; a generated slug is always well formed. */
  function ChosenSlug(name: string, slug: string): (s: string)
    ensures IsEmpty(Trim(slug)) && !IsEmpty(Trim(name)) ==> s == Slugify(Trim(name)) && WellFormedSlug(s)
    ensures !(IsEmpty(Trim(slug)) && !IsEmpty(Trim(name))) ==> s == Trim(slug)
  {
    var n, given := Trim(name), Trim(slug);
    SlugWellFormed(n);
    if IsEmpty(given) && !IsEmpty(n) then Slugify(n) else given
  }

  /** A well-formed slug holds no trim character, so `trim` keeps it. */
  lemma TrimKeepsSlug(w: string)
    requires WellFormedSlug(w)
    ensures Trim(w) == w
  {
    if w != [] {
      assert SlugChar(w[0]) && SlugChar(w[|w| - 1]);
      assert TrimLeft(w) == w;
      assert TrimRight(w) == w;
    }
  }

  /** Entering the slug the form generated from a name, with that same name, keeps
      that slug: generation and an explicit slug agree. */
  lemma GeneratedSlugKept(name: string)
    ensures var g := ChosenSlug(name, ""); ChosenSlug(name, g) == g
  {
    var g := ChosenSlug(name, "");
    assert TrimLeft("") == "" && TrimRight("") == "";
    if !IsEmpty(Trim(name)) {
      TrimKeepsSlug(g);
    }
  }

  /** Lines 49-62. */
  function CreateErrors(products: map<int, Product>, name: string, slug: string): (errors: seq<ProductError>)
    ensures errors == [] <==>
      !IsEmpty(Trim(name)) && !IsEmpty(ChosenSlug(name, slug)) && !SlugTaken(products, ChosenSlug(name, slug))
    ensures |errors| <= 2 && (IsEmpty(Trim(name)) <==> NameEmpty in errors)
  {
    var s := ChosenSlug(name, slug);
    (if IsEmpty(Trim(name)) then [NameEmpty] else [])
    + (if IsEmpty(s) then [SlugEmpty] else if SlugTaken(products, s) then [SlugExists] else [])
  }

  /** No two products share a slug. */
  predicate SlugsUnique(products: map<int, Product>) {
    forall a, b :: a in products && b in products && products[a].slug == products[b].slug ==> a == b
  }

  /** An accepted create keeps slugs unique. */
  lemma CreateKeepsSlugsUnique(products: map<int, Product>, id: int, p: Product)
    requires SlugsUnique(products) && id !in products
    requires !SlugTaken(products, p.slug)
    ensures SlugsUnique(products[id := p])
  {
  }

  /** An update that keeps the row's slug keeps slugs unique. */
  lemma UpdateKeepsSlugsUnique(products: map<int, Product>, id: int, p: Product)
    requires SlugsUnique(products) && id in products
    requires p.slug == products[id].slug
    ensures SlugsUnique(products[id := p])
  {
  }

  /** Lines 36-94. */
  method CreateProduct(db: Database, name: string, slug: string, description: string) returns (errors: seq<ProductError>)
    requires db.Valid()
    modifies db
    ensures db.Valid()
    ensures errors == CreateErrors(old(db.products), name, slug)
    ensures errors == [] ==>
      && db.products == old(db.products)[old(db.nextProductId) := Product(Trim(name), ChosenSlug(name, slug), Trim(description))]
      && db.nextProductId == old(db.nextProductId) + 1
    ensures errors != [] ==> db.products == old(db.products) && db.nextProductId == old(db.nextProductId)
    ensures SlugsUnique(old(db.products)) ==> SlugsUnique(db.products)
    ensures db.customers == old(db.customers) && db.plans == old(db.plans) && db.licenses == old(db.licenses)
    ensures db.domains == old(db.domains) && db.logs == old(db.logs)
    ensures db.nextCustomerId == old(db.nextCustomerId) && db.nextPlanId == old(db.nextPlanId)
    ensures db.nextLicenseId == old(db.nextLicenseId) && db.nextDomainId == old(db.nextDomainId)
  {
    errors := CreateErrors(db.products, name, slug);
    if errors == [] {
      var p := Product(Trim(name), ChosenSlug(name, slug), Trim(description));
      if SlugsUnique(db.products) {
        CreateKeepsSlugsUnique(db.products, db.nextProductId, p);
      }
      var _ := db.InsertProduct(p);
    }
  }

  /** Lines 97-131: only name and description change, and only for an existing row. */
  method UpdateProduct(db: Database, productId: int, name: string, description: string) returns (errors: seq<ProductError>)
    requires db.Valid()
    modifies db
    ensures db.Valid()
    ensures errors == [] <==> !IsEmpty(Trim(name))
    ensures errors != [] ==> errors == [NameEmpty] && db.products == old(db.products)
    ensures errors == [] && productId in old(db.products) ==>
      db.products == old(db.products)[productId := old(db.products)[productId].(name := Trim(name), description := Trim(description))]
    ensures productId !in old(db.products) ==> db.products == old(db.products)
    ensures SlugsUnique(old(db.products)) ==> SlugsUnique(db.products)
    ensures db.customers == old(db.customers) && db.plans == old(db.plans) && db.licenses == old(db.licenses)
    ensures db.domains == old(db.domains) && db.logs == old(db.logs)
    ensures db.nextCustomerId == old(db.nextCustomerId) && db.nextProductId == old(db.nextProductId)
    ensures db.nextPlanId == old(db.nextPlanId) && db.nextLicenseId == old(db.nextLicenseId)
    ensures db.nextDomainId == old(db.nextDomainId)
  {
    if IsEmpty(Trim(name)) {
      return [NameEmpty];
    }
    errors := [];
    if productId in db.products {
      var p := db.products[productId].(name := Trim(name), description := Trim(description));
      if SlugsUnique(db.products) {
        UpdateKeepsSlugsUnique(db.products, productId, p);
      }
      db.PutProduct(productId, p);
    }
  }

  /** The JOIN of lines 138-142: some license has a plan of the product. */
  predicate ProductInUseBy(plans: map<int, Plan>, licenses: map<int, License>, productId: int) {
    exists id :: id in licenses && licenses[id].planId in plans && plans[licenses[id].planId].productId == productId
  }

  function PlansWithout(plans: map<int, Plan>, productId: int): (r: map<int, Plan>)
    ensures forall id :: id in r <==> id in plans && plans[id].productId != productId
  {
    map id | id in plans && plans[id].productId != productId :: plans[id]
  }

  /** Deleting an unused product and its plans leaves no license without its plan. */
  lemma DeleteProductConsistent(
    customers: map<int, Customer>, plans: map<int, Plan>, licenses: map<int, License>,
    domains: map<int, DomainBinding>, logs: seq<LogEntry>, productId: int)
    requires Consistent(customers, plans, licenses, domains, logs)
    requires !ProductInUseBy(plans, licenses, productId)
    ensures Consistent(customers, PlansWithout(plans, productId), licenses, domains, logs)
  {
  }

  /** Lines 134-170. */
  method DeleteProduct(db: Database, productId: int) returns (errors: seq<ProductError>)
    requires db.Valid()
    modifies db
    ensures db.Valid()
    ensures errors == [] <==> !ProductInUseBy(old(db.plans), old(db.licenses), productId)
    ensures errors != [] ==> errors == [ProductInUse] && db.plans == old(db.plans) && db.products == old(db.products)
    ensures errors == [] ==> db.plans == PlansWithout(old(db.plans), productId) && db.products == old(db.products) - {productId}
    ensures SlugsUnique(old(db.products)) ==> SlugsUnique(db.products)
    ensures db.customers == old(db.customers) && db.licenses == old(db.licenses)
    ensures db.domains == old(db.domains) && db.logs == old(db.logs)
    ensures db.nextCustomerId == old(db.nextCustomerId) && db.nextProductId == old(db.nextProductId)
    ensures db.nextPlanId == old(db.nextPlanId) && db.nextLicenseId == old(db.nextLicenseId)
    ensures db.nextDomainId == old(db.nextDomainId)
    ensures old(db.IsConsistent()) ==> db.IsConsistent()
  {
    if ProductInUseBy(db.plans, db.licenses, productId) {
      return [ProductInUse];
    }
    if db.IsConsistent() {
      DeleteProductConsistent(db.customers, db.plans, db.licenses, db.domains, db.logs, productId);
    }
    db.plans := PlansWithout(db.plans, productId);
    db.products := db.products - {productId};
    errors := [];
  }

  /** Lines 28-172: the CSRF check, then the action. */
  method HandleProductPost(db: Database, sessionToken: Option<string>, csrfToken: string, action: ProductAction)
    returns (errors: seq<ProductError>)
    requires db.Valid()
    modifies db
    ensures db.Valid()
    ensures !Functions.ValidateCsrfToken(sessionToken, csrfToken) ==>
      errors == [CsrfInvalid] && db.products == old(db.products) && db.plans == old(db.plans)
    ensures Functions.ValidateCsrfToken(sessionToken, csrfToken) && action.Create? ==>
      errors == CreateErrors(old(db.products), action.name, action.slug)
    ensures Functions.ValidateCsrfToken(sessionToken, csrfToken) && action.Update? ==>
      (errors == [] <==> !IsEmpty(Trim(action.name)))
    ensures Functions.ValidateCsrfToken(sessionToken, csrfToken) && action.Delete? ==>
      (errors == [] <==> !ProductInUseBy(old(db.plans), old(db.licenses), action.productId))
    ensures Functions.ValidateCsrfToken(sessionToken, csrfToken) && action.Create? && errors == [] ==>
      && db.products == old(db.products)[old(db.nextProductId) :=
           Product(Trim(action.name), ChosenSlug(action.name, action.slug), Trim(action.description))]
      && db.plans == old(db.plans)
    ensures Functions.ValidateCsrfToken(sessionToken, csrfToken) && action.Update? && errors == [] && action.productId in old(db.products) ==>
      && db.products == old(db.products)[action.productId :=
           old(db.products)[action.productId].(name := Trim(action.name), description := Trim(action.description))]
      && db.plans == old(db.plans)
    ensures action.Update? && action.productId !in old(db.products) ==> db.products == old(db.products) && db.plans == old(db.plans)
    ensures Functions.ValidateCsrfToken(sessionToken, csrfToken) && action.Delete? && errors == [] ==>
      db.products == old(db.products) - {action.productId} && db.plans == PlansWithout(old(db.plans), action.productId)
    ensures action.OtherAction? ==> errors == [] || errors == [CsrfInvalid]
    ensures action.OtherAction? || errors != [] ==> db.products == old(db.products) && db.plans == old(db.plans)
    ensures SlugsUnique(old(db.products)) ==> SlugsUnique(db.products)
    ensures db.customers == old(db.customers) && db.licenses == old(db.licenses)
    ensures db.domains == old(db.domains) && db.logs == old(db.logs)
    ensures old(db.IsConsistent()) ==> db.IsConsistent()
  {
    if !Functions.ValidateCsrfToken(sessionToken, csrfToken) {
      return [CsrfInvalid];
    }
    match action {
      case Create(name, slug, description) =>
        errors := CreateProduct(db, name, slug, description);
      case Update(productId, name, description) =>
        errors := UpdateProduct(db, productId, name, description);
      case Delete(productId) =>
        errors := DeleteProduct(db, productId);
      case OtherAction =>
        errors := [];
    }
  }
}
