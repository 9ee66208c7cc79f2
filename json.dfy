/**
 * `json_encode` and `json_decode` for the two shapes the core serialises: a list
 * of strings (a plan's stored feature list) and the four-field entitlement payload
 * that is signed. Each encoder is paired with a decoder and a round-trip proof,
 * which is what makes the encodings injective.
 */
module Json {
  import opened Wrappers

  /** The escape `json_encode` writes for one character inside a string literal
      (default flags: quote, backslash and slash are escaped, and the control
      characters that have a short escape). */
  function EscapeChar(c: char): string {
    if c == '"' then "\\\""
    else if c == '\\' then "\\\\"
    else if c == '/' then "\\/"
    else if c == '\n' then "\\n"
    else if c == '\r' then "\\r"
    else if c == '\t' then "\\t"
    else if c == '\U{0008}' then "\\b"
    else if c == '\U{000C}' then "\\f"
    else [c]
  }

  /** The character a two-character escape `\e` stands for. */
  function UnescapeLetter(e: char): Option<char> {
    if e == '"' then Some('"')
    else if e == '\\' then Some('\\')
    else if e == '/' then Some('/')
    else if e == 'n' then Some('\n')
    else if e == 'r' then Some('\r')
    else if e == 't' then Some('\t')
    else if e == 'b' then Some('\U{0008}')
    else if e == 'f' then Some('\U{000C}')
    else None
  }

  function Escape(s: string): string {
    if s == [] then [] else EscapeChar(s[0]) + Escape(s[1..])
  }

  /** A JSON string literal. */
  function Quote(s: string): string {
    "\"" + Escape(s) + "\""
  }

  /** Reads the body of a string literal up to and including its closing quote;
      returns the decoded characters and what follows the quote. */
  function ReadString(t: string): (r: Option<(string, string)>)
    ensures r.Some? ==> |r.value.1| < |t|
    decreases |t|
  {
    if t == [] then None
    else if t[0] == '"' then Some(([], t[1..]))
    else if t[0] == '\\' then
      if |t| < 2 then None
      else match UnescapeLetter(t[1])
        case None => None
        case Some(c) =>
          match ReadString(t[2..])
          case None => None
          case Some(p) => Some(([c] + p.0, p.1))
    else
      match ReadString(t[1..])
      case None => None
      case Some(p) => Some(([t[0]] + p.0, p.1))
  }

  /** Reading one escaped character in front of a readable tail. */
  lemma ReadEscapedChar(c: char, tail: string, s: string, rest: string)
    requires ReadString(tail) == Some((s, rest))
    ensures ReadString(EscapeChar(c) + tail) == Some(([c] + s, rest))
  {
    var t := EscapeChar(c) + tail;
    if |EscapeChar(c)| == 2 {
      assert t[0] == '\\' && UnescapeLetter(t[1]) == Some(c);
      assert t[2..] == tail;
    } else {
      assert EscapeChar(c) == [c] && t[0] == c;
      assert t[1..] == tail;
    }
  }

  lemma {:induction false} ReadEscaped(s: string, rest: string)
    ensures ReadString(Escape(s) + "\"" + rest) == Some((s, rest))
  {
    if s == [] {
      assert Escape(s) + "\"" + rest == ['"'] + rest;
    } else {
      var tail := Escape(s[1..]) + "\"" + rest;
      assert Escape(s) + "\"" + rest == EscapeChar(s[0]) + tail;
      ReadEscaped(s[1..], rest);
      ReadEscapedChar(s[0], tail, s[1..], rest);
      assert [s[0]] + s[1..] == s;
    }
  }

  /** Reading a quoted literal followed by anything gives back the string. */
  lemma {:induction false} ReadQuoted(s: string, rest: string)
    ensures Quote(s) + rest != [] && (Quote(s) + rest)[0] == '"'
    ensures ReadString((Quote(s) + rest)[1..]) == Some((s, rest))
  {
    assert (Quote(s) + rest)[1..] == Escape(s) + "\"" + rest;
    ReadEscaped(s, rest);
  }

  function DigitChar(d: nat): char
    requires d < 10
  {
    "0123456789"[d]
  }

  function DigitValue(c: char): nat {
    if '0' <= c <= '9' then c as int - '0' as int else 0
  }

  /** Decimal notation of a natural number. */
  function NatToString(n: nat): (s: string)
    ensures s != [] && forall i :: 0 <= i < |s| ==> '0' <= s[i] <= '9'
  {
    if n < 10 then [DigitChar(n)] else NatToString(n / 10) + [DigitChar(n % 10)]
  }

  /** Decimal notation of an integer, with a leading '-' when negative. */
  function IntToString(n: int): string {
    if n < 0 then "-" + NatToString(-n) else NatToString(n)
  }

  function ParseNat(s: string): Option<nat>
    decreases |s|
  {
    if s == [] || !('0' <= s[|s| - 1] <= '9') then None
    else if |s| == 1 then Some(DigitValue(s[0]))
    else match ParseNat(s[..|s| - 1])
      case None => None
      case Some(v) => Some(v * 10 + DigitValue(s[|s| - 1]))
  }

  function ParseInt(s: string): Option<int> {
    if s != [] && s[0] == '-' then
      match ParseNat(s[1..])
      case None => None
      case Some(v) => Some(0 - v as int)
    else
      match ParseNat(s)
      case None => None
      case Some(v) => Some(v)
  }

  lemma DigitRoundTrip(d: nat)
    requires d < 10
    ensures DigitValue(DigitChar(d)) == d
  {
    assert "0123456789"[d] as int - '0' as int == d;
  }

  lemma {:induction false} ParseNatToString(n: nat)
    ensures ParseNat(NatToString(n)) == Some(n)
  {
    if n < 10 {
      DigitRoundTrip(n);
    } else {
      var s := NatToString(n);
      var q, r := n / 10, n % 10;
      ParseNatToString(q);
      DigitRoundTrip(r);
      assert s == NatToString(q) + [DigitChar(r)];
      assert s[..|s| - 1] == NatToString(q);
      assert q * 10 + r == n;
    }
  }

  lemma ParseIntNegative(n: int)
    requires n < 0
    ensures ParseInt(IntToString(n)) == Some(n)
  {
    var m: nat := -n;
    var s := NatToString(m);
    ParseNatToString(m);
    var t := "-" + s;
    assert t[1..] == s;
    assert ParseInt(t) == Some(0 - m);
  }

  lemma ParseIntNonNegative(n: int)
    requires n >= 0
    ensures ParseInt(IntToString(n)) == Some(n)
  {
    var s := NatToString(n);
    assert IntToString(n) == s;
    assert '0' <= s[0] <= '9';
    ParseNatToString(n);
  }

  lemma ParseIntToString(n: int)
    ensures ParseInt(IntToString(n)) == Some(n)
  {
    if n < 0 {
      ParseIntNegative(n);
    } else {
      ParseIntNonNegative(n);
    }
  }

  /** The elements of a JSON array of strings, separated by commas. */
  function Items(xs: seq<string>): string {
    if xs == [] then ""
    else if |xs| == 1 then Quote(xs[0])
    else Quote(xs[0]) + "," + Items(xs[1..])
  }

  /** `json_encode` of a PHP list of strings. */
  function EncodeStringList(xs: seq<string>): string {
    "[" + Items(xs) + "]"
  }

  /** Reads one or more array elements and the closing bracket. */
  function ReadItems(t: string): Option<(seq<string>, string)>
    decreases |t|
  {
    if t == [] || t[0] != '"' then None
    else match ReadString(t[1..])
      case None => None
      case Some(p) =>
        if p.1 != [] && p.1[0] == ']' then Some(([p.0], p.1[1..]))
        else if p.1 != [] && p.1[0] == ',' then
          match ReadItems(p.1[1..])
          case None => None
          case Some(q) => Some(([p.0] + q.0, q.1))
        else None
  }

  /** Reads a JSON array of strings at the start of `t`; returns it and the rest. */
  function ReadStringList(t: string): Option<(seq<string>, string)> {
    if t == [] || t[0] != '[' then None
    else if |t| >= 2 && t[1] == ']' then Some(([], t[2..]))
    else ReadItems(t[1..])
  }

  /** `json_decode($t, true)` where a list of strings is expected; None for anything else. */
  function DecodeStringList(t: string): Option<seq<string>> {
    match ReadStringList(t)
    case Some(p) => if p.1 == [] then Some(p.0) else None
    case None => None
  }

  /** Reading the last element and the closing bracket. */
  lemma ReadItemsLast(x: string, rest: string)
    ensures ReadItems(Quote(x) + "]" + rest) == Some(([x], rest))
  {
    var after := "]" + rest;
    var t := Quote(x) + after;
    assert Quote(x) + "]" + rest == t;
    ReadQuoted(x, after);
    assert after[0] == ']' && after[1..] == rest;
  }

  /** Reading one element, a comma, and then the remaining elements. */
  lemma ReadItemsNext(x: string, more: string, ys: seq<string>, rest: string)
    requires ReadItems(more) == Some((ys, rest))
    ensures ReadItems(Quote(x) + "," + more) == Some(([x] + ys, rest))
  {
    var after := "," + more;
    var t := Quote(x) + after;
    assert Quote(x) + "," + more == t;
    ReadQuoted(x, after);
    assert after[0] == ',' && after[1..] == more;
  }

  lemma {:induction false} ReadItemsEncoded(xs: seq<string>, rest: string)
    requires xs != []
    ensures ReadItems(Items(xs) + "]" + rest) == Some((xs, rest))
  {
    if |xs| == 1 {
      assert Items(xs) == Quote(xs[0]);
      ReadItemsLast(xs[0], rest);
      assert [xs[0]] == xs;
    } else {
      var more := Items(xs[1..]) + "]" + rest;
      assert Items(xs) + "]" + rest == Quote(xs[0]) + "," + more;
      ReadItemsEncoded(xs[1..], rest);
      ReadItemsNext(xs[0], more, xs[1..], rest);
      assert [xs[0]] + xs[1..] == xs;
    }
  }

  lemma ReadStringListEncoded(xs: seq<string>, rest: string)
    ensures ReadStringList(EncodeStringList(xs) + rest) == Some((xs, rest))
  {
    var t := EncodeStringList(xs) + rest;
    if xs == [] {
      assert t == "[]" + rest;
      assert t[2..] == rest;
    } else {
      assert t[1..] == Items(xs) + "]" + rest;
      assert Items(xs) == Quote(xs[0]) || Items(xs) == Quote(xs[0]) + "," + Items(xs[1..]);
      assert t[1] == '"';
      ReadItemsEncoded(xs, rest);
    }
  }

  /** Decoding an encoded list gives the list back. */
  lemma DecodeEncodedList(xs: seq<string>)
    ensures DecodeStringList(EncodeStringList(xs)) == Some(xs)
  {
    assert EncodeStringList(xs) + "" == EncodeStringList(xs);
    ReadStringListEncoded(xs, "");
  }

  /** The entitlement payload `{valid: true, license_key, expires_at, features}`
      in the field order the response builder creates it. `expiresAt` is the end
      date as a timestamp, None for JSON null. */
  datatype Payload = Payload(licenseKey: string, expiresAt: Option<int>, features: seq<string>)

  const KeyField := "{\"valid\":true,\"license_key\":"
  const ExpiryField := ",\"expires_at\":"
  const FeaturesField := ",\"features\":"

  function EncodeExpiry(e: Option<int>): string {
    match e
    case None => "null"
    case Some(t) => Quote(IntToString(t))
  }

  /** The text from the `expires_at` value to the closing brace. */
  function ExpiryAndFeatures(e: Option<int>, features: seq<string>): string {
    EncodeExpiry(e) + (FeaturesField + (EncodeStringList(features) + "}"))
  }

  /** `json_encode` of the payload. */
  function EncodePayload(p: Payload): string {
    KeyField + (Quote(p.licenseKey) + (ExpiryField + ExpiryAndFeatures(p.expiresAt, p.features)))
  }

  /** `t` without the prefix `lit`, if it starts with it. */
  function Expect(lit: string, t: string): Option<string> {
    if |lit| <= |t| && t[..|lit|] == lit then Some(t[|lit|..]) else None
  }

  function ReadExpiry(t: string): Option<(Option<int>, string)> {
    match Expect("null", t)
    case Some(r) => Some((None, r))
    case None =>
      if t == [] || t[0] != '"' then None
      else match ReadString(t[1..])
        case None => None
        case Some(p) =>
          match ParseInt(p.0)
          case None => None
          case Some(n) => Some((Some(n), p.1))
  }

  /** `json_decode` of a payload; None when the text is not one. */
  function DecodePayload(t: string): Option<Payload> {
    match Expect(KeyField, t)
    case None => None
    case Some(t1) =>
      if t1 == [] || t1[0] != '"' then None
      else match ReadString(t1[1..])
        case None => None
        case Some(k) =>
          match Expect(ExpiryField, k.1)
          case None => None
          case Some(t2) => DecodeAfterKey(k.0, t2)
  }

  /** The payload's remaining fields, after `"expires_at":`. */
  function DecodeAfterKey(key: string, t: string): Option<Payload> {
    match ReadExpiry(t)
    case None => None
    case Some(e) =>
      match Expect(FeaturesField, e.1)
      case None => None
      case Some(t3) =>
        match ReadStringList(t3)
        case None => None
        case Some(f) =>
          if f.1 == "}" then Some(Payload(key, e.0, f.0)) else None
  }

  lemma ExpectPrefix(lit: string, rest: string)
    ensures Expect(lit, lit + rest) == Some(rest)
  {
    assert (lit + rest)[..|lit|] == lit;
  }

  lemma {:induction false} ReadExpiryEncoded(e: Option<int>, rest: string)
    ensures ReadExpiry(EncodeExpiry(e) + rest) == Some((e, rest))
  {
    match e
    case None =>
      ExpectPrefix("null", rest);
    case Some(n) =>
      var s := IntToString(n);
      var t := Quote(s) + rest;
      assert EncodeExpiry(e) + rest == t;
      ReadQuoted(s, rest);
      assert Expect("null", t) == None by {
        if 4 <= |t| {
          assert t[..4][0] == '"';
        }
      }
      ParseIntToString(n);
      assert ReadExpiry(t) == Some((Some(n), rest));
  }

  lemma DecodeAfterKeyEncoded(key: string, e: Option<int>, features: seq<string>)
    ensures DecodeAfterKey(key, ExpiryAndFeatures(e, features)) == Some(Payload(key, e, features))
  {
    var tail3 := EncodeStringList(features) + "}";
    ReadExpiryEncoded(e, FeaturesField + tail3);
    ExpectPrefix(FeaturesField, tail3);
    ReadStringListEncoded(features, "}");
  }

  /** Reading the fixed prefix and the key leaves the remaining fields. */
  lemma DecodeKeyPart(key: string, tail: string)
    ensures DecodePayload(KeyField + (Quote(key) + (ExpiryField + tail))) == DecodeAfterKey(key, tail)
  {
    var tail1 := Quote(key) + (ExpiryField + tail);
    ExpectPrefix(KeyField, tail1);
    ReadQuoted(key, ExpiryField + tail);
    ExpectPrefix(ExpiryField, tail);
  }

  /** Decoding an encoded payload gives the payload back. */
  lemma DecodeEncodedPayload(p: Payload)
    ensures DecodePayload(EncodePayload(p)) == Some(p)
  {
    DecodeKeyPart(p.licenseKey, ExpiryAndFeatures(p.expiresAt, p.features));
    DecodeAfterKeyEncoded(p.licenseKey, p.expiresAt, p.features);
  }

  /** The encoding is injective: distinct payloads serialise differently. */
  lemma EncodePayloadInjective(p: Payload, q: Payload)
    requires EncodePayload(p) == EncodePayload(q)
    ensures p == q
  {
    DecodeEncodedPayload(p);
    DecodeEncodedPayload(q);
  }
}
