/**
 * The PHP built-ins the core relies on, with the semantics PHP 8 gives them:
 * `empty()` on strings and scalars, `trim()` with its default character list,
 * the ASCII character classes of the regular expressions `[A-Z]`, `[a-z]`,
 * `[0-9]`, `strtolower` on ASCII, and `strlen` as a count of UTF-8 bytes.
 */
module Php {

  /** `empty($s)` for a string: true for "" and, a PHP quirk, for "0". */
  predicate IsEmpty(s: string) {
    s == "" || s == "0"
  }

  /** The scalar a decoded JSON field or a session entry may hold. */
  datatype Scalar = Bool(b: bool) | Int(i: int) | Str(s: string)

  /** PHP's conversion to bool, the test behind `if ($x)` and `!empty($x)`. */
  predicate Truthy(v: Scalar) {
    match v
    case Bool(b) => b
    case Int(i) => i != 0
    case Str(s) => !IsEmpty(s)
  }

  /** The characters `trim()` strips by default: " \t\n\r\0\x0B". */
  predicate IsTrimChar(c: char) {
    c == ' ' || c == '\t' || c == '\n' || c == '\r' || c == '\0' || c == '\U{000B}'
  }

  /** `ltrim($s)`: drops the leading run of trim characters and nothing else. */
  function TrimLeft(s: string): (r: string)
    ensures |r| <= |s| && r == s[|s| - |r|..]
    ensures r == [] || !IsTrimChar(r[0])
    ensures forall i :: 0 <= i < |s| - |r| ==> IsTrimChar(s[i])
  {
    if s != [] && IsTrimChar(s[0]) then TrimLeft(s[1..]) else s
  }

  /** `rtrim($s)`: drops the trailing run of trim characters and nothing else. */
  function TrimRight(s: string): (r: string)
    ensures |r| <= |s| && r == s[..|r|]
    ensures r == [] || !IsTrimChar(r[|r| - 1])
    ensures forall i :: |r| <= i < |s| ==> IsTrimChar(s[i])
  {
    if s != [] && IsTrimChar(s[|s| - 1]) then TrimRight(s[..|s| - 1]) else s
  }

  /** `trim($s)`. */
  function Trim(s: string): string {
    TrimRight(TrimLeft(s))
  }

  /** The result of `trim` neither starts nor ends with a trim character. */
  lemma TrimmedEnds(s: string)
    ensures Trim(s) == [] || (!IsTrimChar(Trim(s)[0]) && !IsTrimChar(Trim(s)[|Trim(s)| - 1]))
  {
    var l := TrimLeft(s);
    var r := TrimRight(l);
    if r != [] {
      assert r[0] == l[0];
    }
  }

  /** Trimming twice is trimming once. */
  lemma TrimIdempotent(s: string)
    ensures Trim(Trim(s)) == Trim(s)
  {
    var t := Trim(s);
    TrimmedEnds(s);
    assert TrimLeft(t) == t;
    assert TrimRight(t) == t;
  }

  predicate IsUpper(c: char) {
    'A' <= c <= 'Z'
  }

  predicate IsLower(c: char) {
    'a' <= c <= 'z'
  }

  predicate IsDigit(c: char) {
    '0' <= c <= '9'
  }

  /** The class `[a-zA-Z0-9]`. */
  predicate IsAlnum(c: char) {
    IsUpper(c) || IsLower(c) || IsDigit(c)
  }

  /** `strtolower` on one character: ASCII letters only (PHP 8.2 and later). */
  function ToLower(c: char): (r: char)
    ensures IsUpper(c) ==> IsLower(r)
    ensures !IsUpper(c) ==> r == c
  {
    if IsUpper(c) then (c as int + 32) as char else c
  }

  /** ASCII upper-casing of one character. */
  function ToUpper(c: char): (r: char)
    ensures IsLower(c) ==> IsUpper(r)
    ensures !IsLower(c) ==> r == c
  {
    if IsLower(c) then (c as int - 32) as char else c
  }

  /** The number of bytes of the UTF-8 encoding of one character. */
  function Utf8Width(c: char): (n: nat)
    ensures 1 <= n <= 4
    ensures n == 1 <==> c as int < 0x80
  {
    if c as int < 0x80 then 1
    else if c as int < 0x800 then 2
    else if c as int < 0x10000 then 3
    else 4
  }

  /** `strlen($s)`: PHP counts the bytes of the UTF-8 string, not its characters. */
  function Utf8Length(s: string): (n: nat)
    ensures n >= |s|
  {
    if s == [] then 0 else Utf8Width(s[0]) + Utf8Length(s[1..])
  }

  /** `explode($sep, $s)` with a one-character separator: the pieces between
      separators, at least one. */
  function Explode(sep: char, s: string): (parts: seq<string>)
    ensures |parts| >= 1
    ensures forall i :: 0 <= i < |parts| ==> sep !in parts[i]
    decreases |s|
  {
    if s == [] then [""]
    else
      var rest := Explode(sep, s[1..]);
      if s[0] == sep then [""] + rest
      else [[s[0]] + rest[0]] + rest[1..]
  }

  /** `implode($sep, $parts)`. */
  function Implode(sep: char, parts: seq<string>): string
    requires |parts| >= 1
    decreases |parts|
  {
    if |parts| == 1 then parts[0] else parts[0] + [sep] + Implode(sep, parts[1..])
  }

  /** Prepending a character to the first piece prepends it to the joined text. */
  lemma ImplodeFirst(sep: char, c: char, parts: seq<string>)
    requires |parts| >= 1
    ensures Implode(sep, [[c] + parts[0]] + parts[1..]) == [c] + Implode(sep, parts)
  {
    var front := [[c] + parts[0]] + parts[1..];
    assert front[0] == [c] + parts[0];
    if |parts| > 1 {
      assert front[1..] == parts[1..];
    }
  }

  /** An empty first piece leaves only the separator in front. */
  lemma ImplodeEmptyFirst(sep: char, parts: seq<string>)
    requires |parts| >= 1
    ensures Implode(sep, [""] + parts) == [sep] + Implode(sep, parts)
  {
    assert ([""] + parts)[1..] == parts;
  }

  /** Exploding loses nothing: joining the pieces again gives the input back. */
  lemma {:induction false} ImplodeExplode(sep: char, s: string)
    ensures Implode(sep, Explode(sep, s)) == s
    decreases |s|
  {
    if s != [] {
      var rest := Explode(sep, s[1..]);
      ImplodeExplode(sep, s[1..]);
      if s[0] == sep {
        ImplodeEmptyFirst(sep, rest);
      } else {
        ImplodeFirst(sep, s[0], rest);
      }
      assert s == [s[0]] + s[1..];
    }
  }
}
