/** Percent encoding and decoding of byte strings. */
module Percent {

  /** A byte string: every character is an octet. */
  predicate Octets(s: string) {
    forall k :: 0 <= k < |s| ==> s[k] as int < 256
  }

  predicate Alnum(c: char) {
    '0' <= c <= '9' || 'A' <= c <= 'Z' || 'a' <= c <= 'z'
  }

  predicate Unreserved(c: char) {
    Alnum(c) || c == '-' || c == '_' || c == '.' || c == '~'
  }

  /** Unreserved characters, sub-delimiters, `:`, `@` and `/`. */
  predicate PathChar(c: char) {
    Unreserved(c) || c in "!$&'()*+,;=:@/"
  }

  predicate HexDigit(c: char) {
    '0' <= c <= '9' || 'A' <= c <= 'F' || 'a' <= c <= 'f'
  }

  function HexValue(c: char): (v: nat)
    requires HexDigit(c)
    ensures v < 16
  {
    if c <= '9' then c as int - '0' as int
    else if c <= 'F' then c as int - 'A' as int + 10
    else c as int - 'a' as int + 10
  }

  function HexChar(v: nat): (c: char)
    requires v < 16
    ensures HexDigit(c) && HexValue(c) == v && Alnum(c)
  {
    if v < 10 then ('0' as int + v) as char else ('A' as int + v - 10) as char
  }

  /** `%` and two upper-case digits. */
  function Escape(c: char): (t: string)
    requires c as int < 256
  {
    ['%', HexChar(c as int / 16), HexChar(c as int % 16)]
  }

  // ---- UrlEncode and EncodePath -------------------------------------------------------------

  function EncodedChar(c: char, keep: char -> bool): string {
    if keep(c) then [c] else if c as int < 256 then Escape(c) else [c]
  }

  function Encoded(s: string, keep: char -> bool): string {
    if s == "" then "" else EncodedChar(s[0], keep) + Encoded(s[1..], keep)
  }

  function Kept(encodeAll: bool): char -> bool {
    c => !encodeAll && Unreserved(c)
  }

  lemma EncodedFrom(s: string, i: nat, keep: char -> bool)
    requires i <= |s|
    ensures Encoded(s[i..], keep) == if i == |s| then "" else EncodedChar(s[i], keep) + Encoded(s[i + 1..], keep)
  {
    if i < |s| {
      assert s[i..][1..] == s[i + 1..];
    }
  }

  lemma Shift(r: string, x: string, rest: string)
    ensures r + (x + rest) == (r + x) + rest
  {
  }

  method UrlEncode(s: string, encodeAll: bool) returns (r: string)
    requires Octets(s)
    ensures r == Encoded(s, Kept(encodeAll))
  {
    hide Encoded, Escape, Unreserved;
    ghost var keep := Kept(encodeAll);
    r := "";
    var i := 0;
    assert s[0..] == s && "" + Encoded(s, keep) == Encoded(s, keep);
    while i < |s|
      invariant i <= |s| && r + Encoded(s[i..], keep) == Encoded(s, keep)
    {
      var c := s[i];
      EncodedFrom(s, i, keep);
      Shift(r, EncodedChar(c, keep), Encoded(s[i + 1..], keep));
      if !encodeAll && Unreserved(c) {
        r := r + [c];
      } else {
        r := r + Escape(c);
      }
      i := i + 1;
    }
    EncodedFrom(s, i, keep);
    assert r + "" == r;
  }

  method EncodePath(s: string) returns (r: string)
    requires Octets(s)
    ensures r == Encoded(s, PathChar)
  {
    hide Encoded, Escape, PathChar;
    r := "";
    var i := 0;
    assert s[0..] == s && "" + Encoded(s, PathChar) == Encoded(s, PathChar);
    while i < |s|
      invariant i <= |s| && r + Encoded(s[i..], PathChar) == Encoded(s, PathChar)
    {
      var c := s[i];
      EncodedFrom(s, i, PathChar);
      Shift(r, EncodedChar(c, PathChar), Encoded(s[i + 1..], PathChar));
      if PathChar(c) {
        r := r + [c];
      } else {
        var one := UrlEncode([c], true);
        EncodedOne(c);
        r := r + one;
      }
      i := i + 1;
    }
    EncodedFrom(s, i, PathChar);
    assert r + "" == r;
  }

  lemma EncodedOne(c: char)
    requires c as int < 256
    ensures Encoded([c], Kept(true)) == Escape(c)
  {
    assert [c][1..] == "" && Escape(c) + "" == Escape(c);
  }

  // ---- UrlDecode ----------------------------------------------------------------------------

  /** An escape starts here; its two digits must lie within the text. */
  predicate EscapeAt(s: string, i: nat) {
    i + 2 < |s| && s[i] == '%' && HexDigit(s[i + 1]) && HexDigit(s[i + 2])
  }

  function Unescaped(hi: char, lo: char): (c: char)
    requires HexDigit(hi) && HexDigit(lo)
    ensures c as int < 256
  {
    (16 * HexValue(hi) + HexValue(lo)) as char
  }

  function Decoded(s: string): string {
    if s == "" then ""
    else if EscapeAt(s, 0) then [Unescaped(s[1], s[2])] + Decoded(s[3..])
    else [if s[0] == '+' then ' ' else s[0]] + Decoded(s[1..])
  }

  lemma DecodedFrom(s: string, i: nat)
    requires i <= |s|
    ensures Decoded(s[i..]) == if i == |s| then ""
                               else if EscapeAt(s, i) then [Unescaped(s[i + 1], s[i + 2])] + Decoded(s[i + 3..])
                               else [if s[i] == '+' then ' ' else s[i]] + Decoded(s[i + 1..])
  {
    if i < |s| {
      assert EscapeAt(s[i..], 0) <==> EscapeAt(s, i);
      assert s[i..][1..] == s[i + 1..];
      assert EscapeAt(s, i) ==> s[i..][3..] == s[i + 3..];
    }
  }

  /** `UrlDecode`, and the parser's `_urlDecode`. */
  method UrlDecode(s: string) returns (r: string)
    ensures r == Decoded(s)
  {
    hide Decoded, Unescaped, HexDigit;
    r := "";
    var i := 0;
    assert s[0..] == s && "" + Decoded(s) == Decoded(s);
    while i < |s|
      invariant i <= |s| && r + Decoded(s[i..]) == Decoded(s)
    {
      DecodedFrom(s, i);
      if s[i] == '%' && i + 2 < |s| && HexDigit(s[i + 1]) && HexDigit(s[i + 2]) {
        var c := Unescaped(s[i + 1], s[i + 2]);
        Shift(r, [c], Decoded(s[i + 3..]));
        r := r + [c];
        i := i + 3;
      } else {
        var c := if s[i] == '+' then ' ' else s[i];
        Shift(r, [c], Decoded(s[i + 1..]));
        r := r + [c];
        i := i + 1;
      }
    }
    DecodedFrom(s, i);
    assert r + "" == r;
  }

  // ---- Digits and characters by name --------------------------------------------------------

  const UPPER_DIGITS := "0123456789ABCDEF"
  const LOWER_DIGITS := "0123456789abcdef"

  /** `c` is the hexadecimal digit of `v`, in either case. */
  predicate IsDigitOf(c: char, v: nat)
    requires v < 16
  {
    c == UPPER_DIGITS[v] || c == LOWER_DIGITS[v]
  }

  lemma DigitValues(c: char, v: nat)
    requires v < 16
    ensures IsDigitOf(c, v) <==> HexDigit(c) && HexValue(c) == v
    ensures HexChar(v) == UPPER_DIGITS[v]
  {
  }

  /** An escape of an octet decodes to it, whatever the case of its digits. */
  lemma EitherCaseDecodes(c: char, hi: char, lo: char, rest: string)
    requires c as int < 256 && IsDigitOf(hi, c as int / 16) && IsDigitOf(lo, c as int % 16)
    ensures Decoded(['%', hi, lo] + rest) == [c] + Decoded(rest)
  {
    DigitValues(hi, c as int / 16);
    DigitValues(lo, c as int % 16);
    var t := ['%', hi, lo] + rest;
    assert EscapeAt(t, 0) && t[3..] == rest;
  }

  ghost predicate IsDigit(c: char) {
    exists v: nat :: v < 16 && IsDigitOf(c, v)
  }

  lemma DigitsNamed(c: char)
    ensures IsDigit(c) <==> HexDigit(c)
  {
    if HexDigit(c) {
      DigitValues(c, HexValue(c));
    }
    if v: nat :| v < 16 && IsDigitOf(c, v) {
      DigitValues(c, v);
    }
  }

  /** A `%` that no two digits follow stays; every other character that starts no escape stays too, but for `+`. */
  lemma OthersDecode(c: char, rest: string)
    requires c == '%' ==> !(|rest| >= 2 && IsDigit(rest[0]) && IsDigit(rest[1]))
    ensures Decoded([c] + rest) == [if c == '+' then ' ' else c] + Decoded(rest)
  {
    var t := [c] + rest;
    assert t[1..] == rest;
    if |rest| >= 2 {
      DigitsNamed(rest[0]);
      DigitsNamed(rest[1]);
    }
  }

  /** Encoding goes character by character: one that is kept stays, any other becomes `%` and two upper-case digits. */
  lemma EncodedByName(c: char, rest: string, keep: char -> bool)
    requires c as int < 256
    ensures Encoded("", keep) == ""
    ensures Encoded([c] + rest, keep)
            == (if keep(c) then [c] else ['%', UPPER_DIGITS[c as int / 16], UPPER_DIGITS[c as int % 16]])
               + Encoded(rest, keep)
  {
    DigitValues('0', c as int / 16);
    DigitValues('0', c as int % 16);
    assert ([c] + rest)[1..] == rest;
  }

  /** The sets of characters that the two encoders keep, in the terms of sections 2.2, 2.3 and 3.3 of RFC 3986:
      the unreserved ones; and those, the sub-delimiters, `:`, `@` and `/`. */
  lemma KeptCharacters(c: char)
    ensures !Kept(true)(c)
    ensures Kept(false)(c) <==> 'A' <= c <= 'Z' || 'a' <= c <= 'z' || '0' <= c <= '9' || c in "-._~"
    ensures PathChar(c) <==> Kept(false)(c) || c in "!$&'()*+,;=" || c in ":@/"
  {
  }

  // ---- Round trips --------------------------------------------------------------------------

  /** What decoding makes of a text without escapes. */
  function Spaced(s: string): string {
    seq(|s|, i requires 0 <= i < |s| => if s[i] == '+' then ' ' else s[i])
  }

  lemma EscapeDecodes(c: char, rest: string)
    requires c as int < 256
    ensures Decoded(Escape(c) + rest) == [c] + Decoded(rest)
  {
    var t := Escape(c) + rest;
    assert EscapeAt(t, 0) && t[3..] == rest;
  }

  lemma PlainDecodes(c: char, rest: string)
    requires c != '%'
    ensures Decoded([c] + rest) == [if c == '+' then ' ' else c] + Decoded(rest)
  {
    assert ([c] + rest)[1..] == rest;
  }

  /** Whatever set of characters is kept, as long as `%` is not in it, decoding undoes encoding, except
      that a kept `+` comes back as a space. */
  lemma {:induction false} DecodeEncoded(s: string, keep: char -> bool)
    requires Octets(s) && !keep('%')
    ensures Decoded(Encoded(s, keep)) == if keep('+') then Spaced(s) else s
  {
    hide Decoded, Escape;
    if s == "" {
      DecodedFrom("", 0);
    } else {
      var c, rest := s[0], Encoded(s[1..], keep);
      DecodeEncoded(s[1..], keep);
      if keep(c) {
        PlainDecodes(c, rest);
      } else {
        EscapeDecodes(c, rest);
      }
      assert s == [c] + s[1..];
      assert Spaced(s) == [if c == '+' then ' ' else c] + Spaced(s[1..]);
    }
  }

  /** In both modes. */
  lemma UrlRoundTrip(s: string, encodeAll: bool)
    requires Octets(s)
    ensures Decoded(Encoded(s, Kept(encodeAll))) == s
  {
    DecodeEncoded(s, Kept(encodeAll));
  }

  /** A path comes back just when it has no `+`. */
  lemma PathRoundTrip(s: string)
    requires Octets(s)
    ensures Decoded(Encoded(s, PathChar)) == Spaced(s)
    ensures Decoded(Encoded(s, PathChar)) == s <==> '+' !in s
  {
    DecodeEncoded(s, PathChar);
    if '+' in s {
      var i :| 0 <= i < |s| && s[i] == '+';
      assert Spaced(s)[i] != s[i];
    }
  }

  /** Encoded text is made of unreserved characters and `%` only. */
  lemma {:induction false} EncodedIsSafe(s: string, encodeAll: bool)
    requires Octets(s)
    ensures forall k :: 0 <= k < |Encoded(s, Kept(encodeAll))| ==>
              Unreserved(Encoded(s, Kept(encodeAll))[k]) || Encoded(s, Kept(encodeAll))[k] == '%'
  {
    if s != "" {
      EncodedIsSafe(s[1..], encodeAll);
    }
  }
}
