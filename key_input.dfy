/**
 * assets/js/main.js, lines 73-91: the handler that reformats a license-key input
 * field on every keystroke. The value is upper-cased, stripped of everything but
 * A-Z and 0-9, and rebuilt character by character with a hyphen before every
 * fourth character, except before the last one.
 */
module KeyInput {
  import opened Php
  import LicenseGenerator

  /** `toUpperCase()`, on ASCII letters. */
  function Upper(s: string): (r: string)
    ensures |r| == |s|
  {
    seq(|s|, i requires 0 <= i < |s| => ToUpper(s[i]))
  }

  predicate IsKeyChar(c: char) {
    LicenseGenerator.IsKeyChar(c)
  }

  /** `.replace(/[^A-Z0-9]/g, '')`. */
  function KeepKeyChars(s: string): (r: string)
    ensures |r| <= |s| && LicenseGenerator.AllKeyChars(r)
  {
    if s == [] then []
    else (if IsKeyChar(s[0]) then [s[0]] else []) + KeepKeyChars(s[1..])
  }

  /** The value after line 77. */
  function Clean(value: string): (r: string)
    ensures LicenseGenerator.AllKeyChars(r)
  {
    KeepKeyChars(Upper(value))
  }

  /** What iteration `i` of the loop appends: a hyphen when `i > 0`, `i % 4 == 0`
      and `i < length - 1`, then the character itself. */
  function Piece(c: string, i: nat): string
    requires i < |c|
  {
    (if i > 0 && i % 4 == 0 && i < |c| - 1 then "-" else "") + [c[i]]
  }

  /** `formatted` after the first `k` iterations. */
  function Hyphenated(c: string, k: nat): string
    requires k <= |c|
  {
    if k == 0 then "" else Hyphenated(c, k - 1) + Piece(c, k - 1)
  }

  /** The new field value. */
  function Format(value: string): string {
    var c := Clean(value);
    if |c| > 0 then Hyphenated(c, |c|) else c
  }

  /** Lines 77-89. */
  method FormatKeyInput(value: string) returns (formatted: string)
    ensures formatted == Format(value)
  {
    var v := Clean(value);
    if |v| == 0 {
      return v;
    }
    formatted := "";
    var i := 0;
    while i < |v|
      invariant 0 <= i <= |v|
      invariant formatted == Hyphenated(v, i)
    {
      if i > 0 && i % 4 == 0 && i < |v| - 1 {
        formatted := formatted + "-";
      }
      formatted := formatted + [v[i]];
      i := i + 1;
    }
  }

  // ---------------------------------------------------------------------------
  // What the formatter guarantees

  predicate FormatChar(c: char) {
    IsKeyChar(c) || c == '-'
  }

  predicate AllFormatChars(s: string) {
    forall i :: 0 <= i < |s| ==> FormatChar(s[i])
  }

  lemma {:induction false} HyphenatedChars(c: string, k: nat)
    requires k <= |c| && LicenseGenerator.AllKeyChars(c)
    ensures AllFormatChars(Hyphenated(c, k))
  {
    if k > 0 {
      HyphenatedChars(c, k - 1);
      assert IsKeyChar(c[k - 1]);
    }
  }

  /** The output holds only A-Z, 0-9 and '-'. */
  lemma FormatChars(value: string)
    ensures AllFormatChars(Format(value))
  {
    var c := Clean(value);
    if |c| > 0 {
      HyphenatedChars(c, |c|);
    }
  }

  /** The text without its hyphens. */
  function StripHyphens(s: string): (r: string)
    ensures |r| <= |s|
  {
    if s == [] then [] else (if s[0] == '-' then [] else [s[0]]) + StripHyphens(s[1..])
  }

  lemma {:induction false} StripHyphensAppend(a: string, b: string)
    ensures StripHyphens(a + b) == StripHyphens(a) + StripHyphens(b)
  {
    if a != [] {
      assert (a + b)[1..] == a[1..] + b;
      StripHyphensAppend(a[1..], b);
    } else {
      assert a + b == b;
    }
  }

  lemma {:induction false} StripHyphenated(c: string, k: nat)
    requires k <= |c| && LicenseGenerator.AllKeyChars(c)
    ensures StripHyphens(Hyphenated(c, k)) == c[..k]
  {
    if k > 0 {
      StripHyphenated(c, k - 1);
      StripHyphensAppend(Hyphenated(c, k - 1), Piece(c, k - 1));
      assert IsKeyChar(c[k - 1]);
      var dash := if k - 1 > 0 && (k - 1) % 4 == 0 && k - 1 < |c| - 1 then "-" else "";
      StripHyphensAppend(dash, [c[k - 1]]);
      assert c[..k] == c[..k - 1] + [c[k - 1]];
    }
  }

  /** Taking the hyphens out of the output gives the upper-cased input without
      anything but A-Z and 0-9. */
  lemma StripFormat(value: string)
    ensures StripHyphens(Format(value)) == Clean(value)
  {
    var c := Clean(value);
    if |c| > 0 {
      StripHyphenated(c, |c|);
      assert c[..|c|] == c;
    }
  }

  /** On formatter output, upper-casing changes nothing and the filter only drops hyphens. */
  lemma {:induction false} CleanFormatted(s: string)
    requires AllFormatChars(s)
    ensures Clean(s) == StripHyphens(s)
  {
    assert Upper(s) == s;
    KeepIsStrip(s);
  }

  lemma {:induction false} KeepIsStrip(s: string)
    requires AllFormatChars(s)
    ensures KeepKeyChars(s) == StripHyphens(s)
  {
    if s != [] {
      assert FormatChar(s[0]);
      assert AllFormatChars(s[1..]) by {
        forall i | 0 <= i < |s[1..]|
          ensures FormatChar(s[1..][i])
        {
          assert s[1..][i] == s[i + 1];
        }
      }
      KeepIsStrip(s[1..]);
    }
  }

  /** Reformatting a formatted value changes nothing. */
  lemma FormatIdempotent(value: string)
    ensures Format(Format(value)) == Format(value)
  {
    FormatChars(value);
    CleanFormatted(Format(value));
    StripFormat(value);
  }

  /** Inside a block no hyphen is written: the next character is appended alone. */
  lemma HyphenatedInside(c: string, k: nat, j: nat, prefix: string)
    requires k % 4 == 0 && 1 <= j < 4 && k + j + 1 <= |c|
    requires Hyphenated(c, k + j) == prefix + c[k..k + j]
    ensures Hyphenated(c, k + j + 1) == prefix + c[k..k + j + 1]
  {
    assert (k + j) % 4 != 0;
    assert Piece(c, k + j) == [c[k + j]];
    assert c[k..k + j + 1] == c[k..k + j] + [c[k + j]];
  }

  /** Four more characters after a multiple of four: one block, preceded by a
      hyphen unless it is the first. */
  lemma HyphenatedBlock(c: string, k: nat)
    requires k % 4 == 0 && k + 4 <= |c|
    ensures Hyphenated(c, k + 4) == Hyphenated(c, k) + (if k > 0 then "-" else "") + c[k..k + 4]
  {
    var prefix := Hyphenated(c, k) + (if k > 0 then "-" else "");
    assert Piece(c, k) == (if k > 0 then "-" else "") + [c[k]];
    assert c[k..k + 1] == [c[k]];
    assert Hyphenated(c, k + 1) == prefix + c[k..k + 1];
    HyphenatedInside(c, k, 1, prefix);
    HyphenatedInside(c, k, 2, prefix);
    HyphenatedInside(c, k, 3, prefix);
  }

  /** One more block after a hyphen extends a grouped key by one segment. */
  lemma GroupedAppend(k: string, x: string, n: nat, segments: nat)
    requires LicenseGenerator.GroupedKey(k, n, segments)
    requires |x| == n && LicenseGenerator.AllKeyChars(x)
    ensures LicenseGenerator.GroupedKey(k + "-" + x, n, segments + 1)
  {
    var g := k + "-" + x;
    assert g[..|g| - n - 1] == k;
    assert g[|g| - n..] == x;
    assert g[|g| - n - 1] == '-';
  }

  /** Sixteen characters are written as four blocks of four, hyphen-separated. */
  lemma SixteenHyphenated(c: string)
    requires |c| == 16
    ensures Hyphenated(c, 16) == c[..4] + "-" + c[4..8] + "-" + c[8..12] + "-" + c[12..]
  {
    var a, b, d, e := c[..4], c[4..8], c[8..12], c[12..];
    assert Hyphenated(c, 0) == "";
    HyphenatedBlock(c, 0);
    assert Hyphenated(c, 4) == a;
    HyphenatedBlock(c, 4);
    assert Hyphenated(c, 8) == a + "-" + b;
    HyphenatedBlock(c, 8);
    assert Hyphenated(c, 12) == a + "-" + b + "-" + d;
    HyphenatedBlock(c, 12);
    assert c[12..16] == e;
  }

  /** Four blocks of four key characters joined by hyphens form a grouped key. */
  lemma FourBlocksGrouped(a: string, b: string, d: string, e: string)
    requires |a| == |b| == |d| == |e| == 4
    requires LicenseGenerator.AllKeyChars(a) && LicenseGenerator.AllKeyChars(b)
    requires LicenseGenerator.AllKeyChars(d) && LicenseGenerator.AllKeyChars(e)
    ensures LicenseGenerator.GroupedKey(a + "-" + b + "-" + d + "-" + e, 4, 4)
  {
    assert LicenseGenerator.GroupedKey(a, 4, 1);
    GroupedAppend(a, b, 4, 1);
    GroupedAppend(a + "-" + b, d, 4, 2);
    GroupedAppend(a + "-" + b + "-" + d, e, 4, 3);
  }

  /** A slice of key characters holds only key characters. */
  lemma SliceKeyChars(c: string, i: nat, j: nat)
    requires i <= j <= |c| && LicenseGenerator.AllKeyChars(c)
    ensures LicenseGenerator.AllKeyChars(c[i..j])
  {
    forall k | 0 <= k < j - i
      ensures LicenseGenerator.IsKeyChar(c[i..j][k])
    {
      assert c[i..j][k] == c[i + k];
    }
  }

  /** Sixteen key characters are shown as XXXX-XXXX-XXXX-XXXX. */
  lemma SixteenGrouped(c: string)
    requires |c| == 16 && LicenseGenerator.AllKeyChars(c)
    ensures Hyphenated(c, 16) == c[..4] + "-" + c[4..8] + "-" + c[8..12] + "-" + c[12..]
    ensures LicenseGenerator.GroupedKey(Hyphenated(c, 16), 4, 4)
  {
    SixteenHyphenated(c);
    SliceKeyChars(c, 0, 4);
    SliceKeyChars(c, 4, 8);
    SliceKeyChars(c, 8, 12);
    SliceKeyChars(c, 12, 16);
    assert c[0..4] == c[..4] && c[12..16] == c[12..];
    FourBlocksGrouped(c[..4], c[4..8], c[8..12], c[12..]);
  }

  /** Five characters get no hyphen: the one before index 4 is only written once a
      sixth character follows. */
  lemma FiveUngrouped(c: string)
    requires |c| == 5
    ensures Hyphenated(c, 5) == c
  {
    HyphenatedBlock(c, 0);
    assert Hyphenated(c, 0) == "";
    assert Piece(c, 4) == [c[4]];
    assert c == c[0..4] + [c[4]];
  }

  /** The default key, segment by segment. */
  lemma DefaultKeyShape(draws: LicenseGenerator.Draws, start: nat)
    ensures LicenseGenerator.Key(draws, start, 4, 4) ==
      LicenseGenerator.Chars(draws, start, 4) + "-" + LicenseGenerator.Chars(draws, start + 4, 4) + "-" +
      LicenseGenerator.Chars(draws, start + 8, 4) + "-" + LicenseGenerator.Chars(draws, start + 12, 4)
  {
  }

  lemma FourBlocksChars(a: string, b: string, d: string, e: string)
    requires |a| == |b| == |d| == |e| == 4
    requires LicenseGenerator.AllKeyChars(a) && LicenseGenerator.AllKeyChars(b)
    requires LicenseGenerator.AllKeyChars(d) && LicenseGenerator.AllKeyChars(e)
    ensures AllFormatChars(a + "-" + b + "-" + d + "-" + e)
  {
    var key := a + "-" + b + "-" + d + "-" + e;
    forall i | 0 <= i < |key|
      ensures FormatChar(key[i])
    {
      if i < 4 { assert key[i] == a[i]; }
      else if i == 4 || i == 9 || i == 14 { }
      else if i < 9 { assert key[i] == b[i - 5]; }
      else if i < 14 { assert key[i] == d[i - 10]; }
      else { assert key[i] == e[i - 15]; }
    }
  }

  lemma StripAroundHyphen(a: string, b: string)
    ensures StripHyphens(a + "-" + b) == StripHyphens(a) + StripHyphens(b)
  {
    var h: string := "-";
    assert h[0] == '-' && h[1..] == [];
    assert StripHyphens(h) == [];
    StripHyphensAppend(a + h, b);
    StripHyphensAppend(a, h);
  }

  lemma FourBlocksStrip(a: string, b: string, d: string, e: string)
    requires LicenseGenerator.AllKeyChars(a) && LicenseGenerator.AllKeyChars(b)
    requires LicenseGenerator.AllKeyChars(d) && LicenseGenerator.AllKeyChars(e)
    ensures StripHyphens(a + "-" + b + "-" + d + "-" + e) == a + b + d + e
  {
    NoHyphens(a);
    NoHyphens(b);
    NoHyphens(d);
    NoHyphens(e);
    StripAroundHyphen(a, b);
    var ab := a + "-" + b;
    assert StripHyphens(ab) == a + b;
    StripAroundHyphen(ab, d);
    var abd := ab + "-" + d;
    assert StripHyphens(abd) == a + b + d;
    StripAroundHyphen(abd, e);
  }

  /** The four blocks of a 16-character concatenation are its slices. */
  lemma FourSlices(a: string, b: string, d: string, e: string)
    requires |a| == |b| == |d| == |e| == 4
    ensures var c := a + b + d + e; |c| == 16 && c[..4] == a && c[4..8] == b && c[8..12] == d && c[12..] == e
  {
    var c := a + b + d + e;
    assert c[..4] == a;
    assert c[4..8] == b;
    assert c[8..12] == d;
    assert c[12..] == e;
  }

  /** A key generated with the default settings is left exactly as it is. */
  lemma GeneratedKeyUnchanged(draws: LicenseGenerator.Draws, start: nat)
    ensures Format(LicenseGenerator.Key(draws, start, 4, 4)) == LicenseGenerator.Key(draws, start, 4, 4)
  {
    var key := LicenseGenerator.Key(draws, start, 4, 4);
    var a := LicenseGenerator.Chars(draws, start, 4);
    var b := LicenseGenerator.Chars(draws, start + 4, 4);
    var d := LicenseGenerator.Chars(draws, start + 8, 4);
    var e := LicenseGenerator.Chars(draws, start + 12, 4);
    DefaultKeyShape(draws, start);
    FourBlocksChars(a, b, d, e);
    FourBlocksStrip(a, b, d, e);
    CleanFormatted(key);
    var c := a + b + d + e;
    assert Clean(key) == c;
    FourSlices(a, b, d, e);
    SixteenHyphenated(c);
    assert Format(key) == Hyphenated(c, 16);
  }

  lemma {:induction false} NoHyphens(s: string)
    requires LicenseGenerator.AllKeyChars(s)
    ensures StripHyphens(s) == s
  {
    if s != [] {
      assert IsKeyChar(s[0]);
      assert LicenseGenerator.AllKeyChars(s[1..]) by {
        forall i | 0 <= i < |s[1..]|
          ensures IsKeyChar(s[1..][i])
        {
          assert s[1..][i] == s[i + 1];
        }
      }
      NoHyphens(s[1..]);
      assert s == [s[0]] + s[1..];
    }
  }
}
