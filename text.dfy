/**
 * The string primitives the extractor leans on: Python's notion of whitespace
 * (`\s`, `str.split()`, `str.strip()`), the substring test `sub in text`,
 * `" ".join(...)`, and the decimal conversions `int(s)` and `str(n)`.
 */
module Text {

  /** Python's `str.isspace()`: the characters `\s` matches and `split()`/`strip()` drop. */
  predicate IsSpace(c: char) {
    || c == ' '
    || '\t' <= c <= '\r'
    || '\U{1C}' <= c <= '\U{1F}'
    || c == '\U{85}' || c == '\U{A0}' || c == '\U{1680}'
    || '\U{2000}' <= c <= '\U{200A}'
    || c == '\U{2028}' || c == '\U{2029}' || c == '\U{202F}' || c == '\U{205F}' || c == '\U{3000}'
  }

  /** A decimal digit; only the ASCII digits are modelled. */
  predicate IsDigit(c: char) {
    '0' <= c <= '9'
  }

  predicate AllDigits(s: string) {
    forall i :: 0 <= i < |s| ==> IsDigit(s[i])
  }

  /** A non-empty run of digits: what `(\d+)` captures. */
  predicate IsDigits(s: string) {
    |s| > 0 && AllDigits(s)
  }

  predicate NoSpace(s: string) {
    forall i :: 0 <= i < |s| ==> !IsSpace(s[i])
  }

  /* ---------------------------------------------------------------------- */
  /* `sub in text`                                                           */

  predicate StartsWith(s: string, prefix: string) {
    |prefix| <= |s| && s[..|prefix|] == prefix
  }

  /** `sub` occurs in `text` at offset `i`. */
  predicate OccursAt(sub: string, text: string, i: nat) {
    i + |sub| <= |text| && text[i..i + |sub|] == sub
  }

  /** Python's `sub in text`. */
  predicate IsSubstring(sub: string, text: string)
    decreases |text|
  {
    StartsWith(text, sub) || (|text| > 0 && IsSubstring(sub, text[1..]))
  }

  /** The substring test holds exactly when `sub` occurs at some offset of `text`. */
  lemma {:induction false} IsSubstringIff(sub: string, text: string)
    ensures IsSubstring(sub, text) <==> exists i: nat :: OccursAt(sub, text, i)
    decreases |text|
  {
    if StartsWith(text, sub) {
      assert OccursAt(sub, text, 0);
    } else if |text| == 0 {
      assert |sub| > 0;
    } else {
      IsSubstringIff(sub, text[1..]);
      if IsSubstring(sub, text[1..]) {
        var j: nat :| OccursAt(sub, text[1..], j);
        assert text[j + 1..j + 1 + |sub|] == text[1..][j..j + |sub|];
        assert OccursAt(sub, text, j + 1);
      } else {
        forall i: nat ensures !OccursAt(sub, text, i) {
          if i == 0 {
            if i + |sub| <= |text| {
              assert text[..|sub|] == text[i..i + |sub|];
            }
          } else if i + |sub| <= |text| {
            assert text[1..][i - 1..i - 1 + |sub|] == text[i..i + |sub|];
            assert !OccursAt(sub, text[1..], i - 1);
          }
        }
      }
    }
  }

  /* ---------------------------------------------------------------------- */
  /* `str.strip()` and `str.split()`                                         */

  function StripLeft(s: string): (r: string)
    ensures |r| <= |s| && r == s[|s| - |r|..]
    ensures forall i :: 0 <= i < |s| - |r| ==> IsSpace(s[i])
    ensures r == [] || !IsSpace(r[0])
  {
    if s != [] && IsSpace(s[0]) then StripLeft(s[1..]) else s
  }

  function StripRight(s: string): (r: string)
    ensures |r| <= |s| && r == s[..|r|]
    ensures forall i :: |r| <= i < |s| ==> IsSpace(s[i])
    ensures r == [] || !IsSpace(r[|r| - 1])
  {
    if s != [] && IsSpace(s[|s| - 1]) then StripRight(s[..|s| - 1]) else s
  }

  /** Python's `s.strip()`: drop leading and trailing whitespace. */
  function Strip(s: string): string {
    StripRight(StripLeft(s))
  }

  /** The end of the token that starts at `i`: the first whitespace at or after `i`. */
  function TokenEnd(s: string, i: nat): (e: nat)
    requires i <= |s|
    ensures i <= e <= |s|
    ensures forall k :: i <= k < e ==> !IsSpace(s[k])
    ensures e < |s| ==> IsSpace(s[e])
    decreases |s| - i
  {
    if i == |s| || IsSpace(s[i]) then i else TokenEnd(s, i + 1)
  }

  /** Python's `s.split()` with no separator: the maximal runs of non-whitespace. */
  function Split(s: string): seq<string>
    decreases |s|
  {
    if s == [] then []
    else if IsSpace(s[0]) then Split(s[1..])
    else
      var e := TokenEnd(s, 0);
      [s[..e]] + Split(s[e..])
  }

  /** Every token `split()` yields is non-empty and free of whitespace. */
  lemma {:induction false} SplitTokens(s: string)
    ensures forall i :: 0 <= i < |Split(s)| ==> |Split(s)[i]| > 0 && NoSpace(Split(s)[i])
    decreases |s|
  {
    if s == [] {
    } else if IsSpace(s[0]) {
      SplitTokens(s[1..]);
    } else {
      var e := TokenEnd(s, 0);
      SplitTokens(s[e..]);
      var r := Split(s);
      forall i | 0 <= i < |r| ensures |r[i]| > 0 && NoSpace(r[i]) {
        if i > 0 {
          assert r[i] == Split(s[e..])[i - 1];
        }
      }
    }
  }

  /** Python's `sep.join(ts)`. */
  function Join(ts: seq<string>, sep: string): string {
    if ts == [] then ""
    else if |ts| == 1 then ts[0]
    else ts[0] + sep + Join(ts[1..], sep)
  }

  lemma TokenEndIs(s: string, i: nat, e: nat)
    requires i <= e <= |s|
    requires forall k :: i <= k < e ==> !IsSpace(s[k])
    requires e < |s| ==> IsSpace(s[e])
    ensures TokenEnd(s, i) == e
  {
  }

  /** A token followed by the end or by whitespace is split off whole. */
  lemma SplitToken(t: string, rest: string)
    requires |t| > 0 && NoSpace(t)
    requires rest == [] || IsSpace(rest[0])
    ensures Split(t + rest) == [t] + Split(rest)
  {
    var s := t + rest;
    TokenEndIs(s, 0, |t|);
    assert s[..|t|] == t && s[|t|..] == rest;
  }

  /** Splitting the single-space join of whitespace-free, non-empty tokens gives them back. */
  lemma {:induction false} SplitJoin(ts: seq<string>)
    requires forall i :: 0 <= i < |ts| ==> |ts[i]| > 0 && NoSpace(ts[i])
    ensures Split(Join(ts, " ")) == ts
  {
    if ts == [] {
    } else if |ts| == 1 {
      SplitToken(ts[0], "");
      assert ts[0] + "" == ts[0];
    } else {
      var rest := Join(ts[1..], " ");
      SplitToken(ts[0], " " + rest);
      assert ts[0] + " " + rest == ts[0] + (" " + rest);
      assert (" " + rest)[1..] == rest;
      SplitJoin(ts[1..]);
      assert [ts[0]] + ts[1..] == ts;
    }
  }

  lemma {:induction false} SplitStripLeft(s: string)
    ensures Split(StripLeft(s)) == Split(s)
    decreases |s|
  {
    if s != [] && IsSpace(s[0]) {
      SplitStripLeft(s[1..]);
    }
  }

  /** A trailing whitespace character does not change the split. */
  lemma {:induction false} SplitDropLastSpace(s: string)
    requires |s| > 0 && IsSpace(s[|s| - 1])
    ensures Split(s) == Split(s[..|s| - 1])
    decreases |s|
  {
    var s' := s[..|s| - 1];
    if IsSpace(s[0]) {
      if |s| > 1 {
        SplitDropLastSpace(s[1..]);
        assert s[1..][..|s| - 2] == s'[1..];
      }
    } else {
      var e := TokenEnd(s, 0);
      assert e < |s|;
      TokenEndIs(s', 0, e);
      assert s'[..e] == s[..e];
      if e < |s| - 1 {
        SplitDropLastSpace(s[e..]);
        assert s[e..][..|s[e..]| - 1] == s'[e..];
      } else {
        assert s[e..] == [s[e]];
        assert Split(s[e..]) == Split(s[e..][1..]);
        assert s'[e..] == [];
      }
    }
  }

  lemma {:induction false} SplitStripRight(s: string)
    ensures Split(StripRight(s)) == Split(s)
    decreases |s|
  {
    if s != [] && IsSpace(s[|s| - 1]) {
      SplitDropLastSpace(s);
      SplitStripRight(s[..|s| - 1]);
    }
  }

  /** `line.strip().split()` splits exactly as `line.split()` does. */
  lemma SplitStrip(s: string)
    ensures Split(Strip(s)) == Split(s)
  {
    SplitStripLeft(s);
    SplitStripRight(StripLeft(s));
  }

  /* ---------------------------------------------------------------------- */
  /* `int(s)` and `str(n)`                                                   */

  function DigitValue(c: char): nat
    requires IsDigit(c)
  {
    c as int - '0' as int
  }

  function DigitChar(d: nat): (c: char)
    requires d < 10
    ensures IsDigit(c) && DigitValue(c) == d
  {
    ('0' as int + d) as char
  }

  /** Python's `int(s)` on a string of digits. */
  function ParseDigits(s: string): nat
    requires AllDigits(s)
    decreases |s|
  {
    if s == [] then 0 else ParseDigits(s[..|s| - 1]) * 10 + DigitValue(s[|s| - 1])
  }

  /** Python's `str(n)` for a natural number: no leading zeros. */
  function NatToString(n: nat): (r: string)
    ensures IsDigits(r)
    ensures |r| > 1 ==> r[0] != '0'
  {
    if n < 10 then [DigitChar(n)] else NatToString(n / 10) + [DigitChar(n % 10)]
  }

  /** Python's `str(i)` for an integer, with a minus sign when negative. */
  function IntToString(i: int): string {
    if i < 0 then "-" + NatToString(-i) else NatToString(i)
  }

  /** Python's `int(s)` on an optionally signed digit string. */
  function ParseInt(s: string): int
    requires |s| > 0 && (if s[0] == '-' then AllDigits(s[1..]) else AllDigits(s))
  {
    if s[0] == '-' then -(ParseDigits(s[1..]) as int) else ParseDigits(s)
  }

  /** `int(str(n)) == n` for naturals. */
  lemma {:induction false} NatToStringRoundTrip(n: nat)
    ensures ParseDigits(NatToString(n)) == n
    decreases n
  {
    if n >= 10 {
      NatToStringRoundTrip(n / 10);
      var r := NatToString(n);
      assert r[..|r| - 1] == NatToString(n / 10);
    }
  }

  /** `int(str(i)) == i` for every integer, negative ones included. */
  lemma IntToStringRoundTrip(i: int)
    ensures var s := IntToString(i); |s| > 0 && (if s[0] == '-' then AllDigits(s[1..]) else AllDigits(s))
    ensures ParseInt(IntToString(i)) == i
  {
    if i < 0 {
      NatToStringRoundTrip(-i);
      assert ("-" + NatToString(-i))[1..] == NatToString(-i);
    } else {
      NatToStringRoundTrip(i);
    }
  }
}
