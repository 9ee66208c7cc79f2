/**
 * includes/license_generator.php: grouped license keys drawn from a 36-symbol
 * alphabet, the uniqueness retry loop, license issuance with its end-date rule,
 * and the signed validation response.
 *
 * `random_int(0, 35)` is an oracle: the i-th call returns `draws(i)`.
 */
module LicenseGenerator {
  import opened Wrappers
  import opened Php
  import opened Store
  import Json
  import Functions

  const Alphabet := "ABCDEFGHIJKLMNOPQRSTUVWXYZ0123456789"

  /** One result of `random_int(0, strlen($chars) - 1)`. */
  type Draw = d: int | 0 <= d < 36

  /** The stream of random draws. */
  type Draws = nat -> Draw

  /** The PHP 8 error raised by `$length / $segments` with zero segments. */
  const DivisionByZero := "Division by zero"

  predicate IsKeyChar(c: char) {
    IsUpper(c) || IsDigit(c)
  }

  predicate AllKeyChars(s: string) {
    forall i :: 0 <= i < |s| ==> IsKeyChar(s[i])
  }

  /** Symbol d of the alphabet: the d-th upper-case letter, then the digit d - 26. */
  function Symbol(d: Draw): (c: char)
    ensures IsKeyChar(c)
  {
    if d < 26 then ('A' as int + d) as char else ('0' as int + (d - 26)) as char
  }

  /** Every symbol of the alphabet is an upper-case letter or a digit, and no
      symbol appears twice, so every draw picks a different character. */
  lemma AlphabetKeyChars(d: Draw)
    ensures Alphabet[d] == Symbol(d) && IsKeyChar(Alphabet[d])
    ensures forall e: Draw :: Symbol(e) == Symbol(d) ==> e == d
  {
    if d < 26 {
      assert Alphabet[..26] == "ABCDEFGHIJKLMNOPQRSTUVWXYZ";
      assert Alphabet[d] == Alphabet[..26][d];
    } else {
      assert Alphabet[26..] == "0123456789";
      assert Alphabet[d] == Alphabet[26..][d - 26];
    }
  }

  /** How often the inner loop `$i < $length / $segments` runs: PHP divides in
      floating point, so a segment has ceil(length / segments) characters. */
  function SegmentLength(length: int, segments: int): nat
    requires segments > 0
    decreases if length <= 0 then 0 else length
  {
    if length <= 0 then 0 else 1 + SegmentLength(length - segments, segments)
  }

  /** `$i < $length / $segments` holds exactly for the first SegmentLength indices. */
  lemma {:induction false} SegmentLengthBound(length: int, segments: int, i: nat)
    requires segments > 0
    ensures i < SegmentLength(length, segments) <==> i * segments < length
    decreases if length <= 0 then 0 else length
  {
    if length > 0 && i > 0 {
      SegmentLengthBound(length - segments, segments, i - 1);
      assert (i - 1) * segments == i * segments - segments;
    }
  }

  /** A length of m whole segments gives segments of exactly m characters. */
  lemma {:induction false} SegmentLengthExact(m: nat, segments: int)
    requires segments > 0
    ensures SegmentLength(m * segments, segments) == m
  {
    if m > 0 {
      assert m * segments - segments == (m - 1) * segments;
      SegmentLengthExact(m - 1, segments);
    }
  }

  /** The `n` characters the draws `from .. from + n - 1` pick. */
  function Chars(draws: Draws, from: nat, n: nat): (r: string)
    ensures |r| == n && AllKeyChars(r)
  {
    var r := seq(n, i requires 0 <= i < n => Symbol(draws(from + i)));
    assert forall i :: 0 <= i < n ==> r[i] == Symbol(draws(from + i)) && IsKeyChar(r[i]);
    r
  }

  lemma CharsStep(draws: Draws, from: nat, n: nat)
    ensures Chars(draws, from, n + 1) == Chars(draws, from, n) + [Symbol(draws(from + n))]
  {
    var a := Chars(draws, from, n + 1);
    var b := Chars(draws, from, n) + [Symbol(draws(from + n))];
    forall i | 0 <= i < n + 1
      ensures a[i] == b[i]
    {
      if i < n {
        assert b[i] == Chars(draws, from, n)[i];
      }
    }
  }

  /** The key `generate_license_key` builds from `s` segments of `n` characters,
      segment k reading the draws from `start + k * n`, joined by hyphens. */
  function Key(draws: Draws, start: nat, n: nat, s: nat): string
    requires s >= 1
    decreases s
  {
    if s == 1 then Chars(draws, start, n)
    else Key(draws, start, n, s - 1) + "-" + Chars(draws, start + (s - 1) * n, n)
  }

  /** The grouped format read from the end: `segments` runs of `n` key characters
      separated by single hyphens, with no leading or trailing hyphen. */
  predicate GroupedKey(k: string, n: nat, segments: nat)
    decreases segments
  {
    if segments == 0 then false
    else if segments == 1 then |k| == n && AllKeyChars(k)
    else
      && |k| >= n + 1
      && k[|k| - n - 1] == '-'
      && AllKeyChars(k[|k| - n..])
      && GroupedKey(k[..|k| - n - 1], n, segments - 1)
  }

  /** Every key is in the grouped format and has s * n characters plus s - 1 hyphens. */
  lemma {:induction false} KeyGrouped(draws: Draws, start: nat, n: nat, s: nat)
    requires s >= 1
    ensures GroupedKey(Key(draws, start, n, s), n, s)
    ensures |Key(draws, start, n, s)| == s * n + s - 1
    decreases s
  {
    if s > 1 {
      KeyGrouped(draws, start, n, s - 1);
      var prev := Key(draws, start, n, s - 1);
      var last := Chars(draws, start + (s - 1) * n, n);
      var k := Key(draws, start, n, s);
      assert k == prev + "-" + last;
      assert k[..|k| - n - 1] == prev;
      assert k[|k| - n..] == last;
      assert k[|k| - n - 1] == '-';
      assert (s - 1) * n + n == s * n;
    }
  }

  /** A key with n >= 1 neither starts nor ends with a hyphen. */
  lemma {:induction false} GroupedKeyEnds(k: string, n: nat, segments: nat)
    requires n >= 1 && GroupedKey(k, n, segments)
    ensures |k| >= n && k[0] != '-' && k[|k| - 1] != '-'
    decreases segments
  {
    if segments > 1 {
      GroupedKeyEnds(k[..|k| - n - 1], n, segments - 1);
      assert k[0] == k[..|k| - n - 1][0];
      assert k[|k| - 1] == k[|k| - n..][n - 1];
    }
  }

  /** With a length divisible by the segment count the key has `length` key
      characters and `segments - 1` hyphens. */
  lemma KeyLengthDivisible(draws: Draws, start: nat, length: int, segments: int)
    requires segments > 0 && length >= 0 && length % segments == 0
    ensures |Key(draws, start, SegmentLength(length, segments), segments)| == length + segments - 1
  {
    var m := length / segments;
    assert length == m * segments;
    SegmentLengthExact(m, segments);
    KeyGrouped(draws, start, m, segments);
  }

  /** With any positive length the key holds at least `length` key characters:
      a length the segment count does not divide is rounded up per segment. */
  lemma KeyLengthRoundsUp(draws: Draws, start: nat, length: int, segments: int)
    requires segments > 0 && length > 0
    ensures var n := SegmentLength(length, segments);
      |Key(draws, start, n, segments)| == segments * n + segments - 1 && segments * n >= length
  {
    var n := SegmentLength(length, segments);
    KeyGrouped(draws, start, n, segments);
    SegmentLengthBound(length, segments, n);
  }

  /** The inner loop of `generate_license_key`: one segment's characters,
      appended while `$i < $length / $segments`. */
  method AppendSegment(key: string, length: int, segments: int, draws: Draws, from: nat) returns (r: string)
    requires segments > 0
    ensures r == key + Chars(draws, from, SegmentLength(length, segments))
  {
    r := key;
    var i := 0;
    while i * segments < length
      invariant 0 <= i <= SegmentLength(length, segments)
      invariant r == key + Chars(draws, from, i)
    {
      SegmentLengthBound(length, segments, i);
      CharsStep(draws, from, i);
      AlphabetKeyChars(draws(from + i));
      r := r + [Alphabet[draws(from + i)]];
      i := i + 1;
    }
    SegmentLengthBound(length, segments, i);
  }

  /** `generate_license_key($length, $segments)`. Segment k uses the draws from
      `start + k * n` on, n being the segment length. */
  method GenerateLicenseKey(length: int, segments: int, draws: Draws, start: nat) returns (r: Result<string>)
    ensures segments == 0 ==> r == Err(DivisionByZero)
    ensures segments < 0 ==> r == Ok("")
    ensures segments > 0 ==> r == Ok(Key(draws, start, SegmentLength(length, segments), segments))
  {
    if segments == 0 {
      return Err(DivisionByZero);
    }
    var key := "";
    var n := if segments > 0 then SegmentLength(length, segments) else 0;
    var from: nat := start;
    var s := 0;
    while s < segments
      invariant segments > 0 ==> 0 <= s <= segments
      invariant segments < 0 ==> s == 0
      invariant from == start + s * n
      invariant s == 0 ==> key == ""
      invariant s > 0 ==> key == Key(draws, start, n, s) + (if s < segments then "-" else "")
    {
      key := AppendSegment(key, length, segments, draws, from);
      assert key == (if s == 0 then Key(draws, start, n, 1) else Key(draws, start, n, s + 1));
      if s < segments - 1 {
        key := key + "-";
      }
      from := from + n;
      assert from == start + (s + 1) * n by {
        assert (s + 1) * n == s * n + n;
      }
      s := s + 1;
    }
    if segments > 0 {
      assert key == Key(draws, start, n, segments) + "";
      assert n == SegmentLength(length, segments);
      assert key == Key(draws, start, SegmentLength(length, segments), segments);
    }
    return Ok(key);
  }

  // ---------------------------------------------------------------- uniqueness

  /** The key the j-th attempt of `generate_unique_license_key` draws: the
      default 4 x 4 key from the next 16 draws. */
  function Candidate(draws: Draws, start: nat, j: nat): string {
    Key(draws, start + j * 16, 4, 4)
  }

  /** `generate_unique_license_key`: draw default keys until one is not among
      the stored keys. `fuel` bounds the attempts the PHP loop does not bound. */
  method GenerateUniqueLicenseKey(existing: set<string>, draws: Draws, start: nat, fuel: nat) returns (r: Option<string>, tries: nat)
    ensures r.Some? ==> tries < fuel && r.value == Candidate(draws, start, tries) && r.value !in existing
    ensures r.Some? ==> GroupedKey(r.value, 4, 4) && |r.value| == 19
    ensures r.None? ==> tries == fuel
    ensures forall j :: 0 <= j < tries ==> Candidate(draws, start, j) in existing
  {
    tries := 0;
    while tries < fuel
      invariant tries <= fuel
      invariant forall j :: 0 <= j < tries ==> Candidate(draws, start, j) in existing
    {
      var from: nat := start + tries * 16;
      var key := GenerateLicenseKey(16, 4, draws, from);
      SegmentLengthExact(4, 4);
      assert key == Ok(Candidate(draws, start, tries));
      if key.value !in existing {
        KeyGrouped(draws, from, 4, 4);
        return Some(key.value), tries;
      }
      tries := tries + 1;
    }
    return None, tries;
  }

  // ---------------------------------------------------------------- issuance

  /** The license keys stored in the licenses table. */
  function StoredKeys(licenses: map<int, License>): set<string> {
    set id | id in licenses :: licenses[id].key
  }

  /** `create_license` end-date rule: a given end date is kept; otherwise a plan
      with a positive duration (in days) fixes it, and anything else leaves the
      license unlimited. */
  function EndDate(endDate: Option<int>, plan: Option<Plan>, start: int): (r: Option<int>)
    ensures endDate.Some? ==> r == endDate
    ensures endDate.None? ==> (r.Some? <==> plan.Some? && plan.value.duration > 0)
    ensures endDate.None? && r.Some? ==> r.value == start + plan.value.duration * 86400 && r.value > start
  {
    if endDate.None? && plan.Some? && plan.value.duration > 0 then Some(start + plan.value.duration * 86400)
    else endDate
  }

  /** `create_license`. A missing key is generated (None when `fuel` runs out
      first); the start date defaults to `now`. Returns the new row's id. */
  method CreateLicense(
    db: Database, customerId: int, planId: int, key: Option<string>, startDate: Option<int>,
    endDate: Option<int>, status: Status, now: int, draws: Draws, drawStart: nat, fuel: nat)
    returns (id: Option<int>)
    requires db.Valid()
    modifies db
    ensures db.Valid()
    ensures id.None? ==> key.None? && unchanged(db)
    ensures id.Some? ==>
      && id.value == old(db.nextLicenseId) && id.value !in old(db.licenses)
      && id.value in db.licenses
      && var l := db.licenses[id.value];
      && db.licenses == old(db.licenses)[id.value := l]
      && l.customerId == customerId && l.planId == planId && l.status == status
      && l.startDate == startDate.GetOr(now)
      && l.endDate == EndDate(endDate, if planId in db.plans then Some(db.plans[planId]) else None, l.startDate)
      && l.validationCount == 0 && l.lastValidation == None && !l.expiryNotified
      && (key.Some? ==> l.key == key.value)
      && (key.None? ==> l.key !in StoredKeys(old(db.licenses)) && GroupedKey(l.key, 4, 4))
    ensures db.customers == old(db.customers) && db.products == old(db.products) && db.plans == old(db.plans)
    ensures db.domains == old(db.domains) && db.logs == old(db.logs)
    ensures old(db.IsConsistent()) && customerId in db.customers && planId in db.plans ==> db.IsConsistent()
  {
    var licenseKey: string;
    if key.None? {
      var generated, _ := GenerateUniqueLicenseKey(StoredKeys(db.licenses), draws, drawStart, fuel);
      if generated.None? {
        return None;
      }
      licenseKey := generated.value;
    } else {
      licenseKey := key.value;
    }
    var start := startDate.GetOr(now);
    var plan := if planId in db.plans then Some(db.plans[planId]) else None;
    var end := EndDate(endDate, plan, start);
    var newId := db.InsertLicense(License(licenseKey, customerId, planId, status, start, end, 0, None, false));
    return Some(newId);
  }

  // ---------------------------------------------------------------- response

  /** The API answer: `{valid: false, message}` or the four signed fields plus
      `signature`. */
  datatype Response = Invalid(message: string) | Valid(payload: Json.Payload, signature: string)

  /** `json_decode($license['features'] ?? '[]', true) ?: []`: the stored list,
      or the empty list for NULL and for text that is not a JSON list of strings. */
  function FeaturesOf(stored: Option<string>): seq<string> {
    match Json.DecodeStringList(stored.GetOr("[]"))
    case Some(xs) => xs
    case None => []
  }

  /** A feature list stored by its JSON encoding is read back unchanged; NULL reads as []. */
  lemma FeaturesOfStored(xs: seq<string>)
    ensures FeaturesOf(Some(Json.EncodeStringList(xs))) == xs
    ensures FeaturesOf(None) == []
  {
    Json.DecodeEncodedList(xs);
    Json.DecodeEncodedList([]);
  }

  /** `generate_license_response`: the signature covers the four fields before it
      is attached. */
  function GenerateLicenseResponse(
    license: License, features: Option<string>, isValid: bool, message: string,
    secret: string, mac: Functions.Mac): (r: Response)
    ensures !isValid ==> r == Invalid(message)
    ensures isValid ==> r.Valid? && r.payload == Json.Payload(license.key, license.endDate, FeaturesOf(features))
    ensures isValid ==> Functions.Verify(r.payload, r.signature, secret, mac)
  {
    if !isValid then Invalid(message)
    else
      var payload := Json.Payload(license.key, license.endDate, FeaturesOf(features));
      Valid(payload, Functions.Sign(payload, secret, mac))
  }

  /** Only the response signed for a license's own fields verifies: any other
      key, end date or feature list is rejected under a collision-free MAC. */
  lemma ResponseBindsLicense(
    license: License, features: Option<string>, secret: string, mac: Functions.Mac, claimed: Json.Payload)
    requires Functions.CollisionFree(mac, secret)
    ensures var r := GenerateLicenseResponse(license, features, true, "", secret, mac);
      Functions.Verify(claimed, r.signature, secret, mac) <==> claimed == r.payload
  {
    var r := GenerateLicenseResponse(license, features, true, "", secret, mac);
    if claimed != r.payload {
      Functions.AlteredPayloadRejected(r.payload, claimed, secret, mac);
    }
  }
}
