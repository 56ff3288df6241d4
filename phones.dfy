/** The phone-number and identifier helpers of app/main.py:
    `_normalize_phone`, the live `_mask_phone`, `_short_phone` and
    `_looks_like_contact_id`. */
module Phones {
  import opened Base

  /** The characters `[\d+]` keeps. */
  predicate IsDialChar(c: char) {
    IsDigit(c) || c == '+'
  }

  predicate HasDialChar(s: string) {
    exists i :: 0 <= i < |s| && IsDialChar(s[i])
  }

  /** `re.sub(r"[^\d\+]", "", s)` */
  function KeepDialChars(s: string): (r: string)
    ensures |r| <= |s|
    ensures forall i :: 0 <= i < |r| ==> IsDialChar(r[i])
  {
    if s == [] then []
    else KeepDialChars(s[..|s| - 1]) + (if IsDialChar(s[|s| - 1]) then [s[|s| - 1]] else [])
  }

  /** Nothing is kept exactly when there is no dial character. */
  lemma {:induction false} KeepDialCharsNonEmpty(s: string)
    ensures KeepDialChars(s) != [] <==> HasDialChar(s)
  {
    if s != [] {
      var init := s[..|s| - 1];
      KeepDialCharsNonEmpty(init);
      if HasDialChar(init) {
        var i :| 0 <= i < |init| && IsDialChar(init[i]);
        assert s[i] == init[i];
      }
      if HasDialChar(s) && !IsDialChar(s[|s| - 1]) {
        var i :| 0 <= i < |s| && IsDialChar(s[i]);
        assert init[i] == s[i];
      }
    }
  }

  /** `re.sub(r"\D", "", s)` */
  function DigitsOnly(s: string): (r: string)
    ensures |r| <= |s|
    ensures forall i :: 0 <= i < |r| ==> IsDigit(r[i])
  {
    if s == [] then []
    else DigitsOnly(s[..|s| - 1]) + (if IsDigit(s[|s| - 1]) then [s[|s| - 1]] else [])
  }

  lemma {:induction false} DigitsOnlyOfDigits(s: string)
    requires forall i :: 0 <= i < |s| ==> IsDigit(s[i])
    ensures DigitsOnly(s) == s
  {
    if s != [] {
      DigitsOnlyOfDigits(s[..|s| - 1]);
    }
  }

  lemma {:induction false} KeepDialCharsOfDialChars(s: string)
    requires forall i :: 0 <= i < |s| ==> IsDialChar(s[i])
    ensures KeepDialChars(s) == s
  {
    if s != [] {
      KeepDialCharsOfDialChars(s[..|s| - 1]);
    }
  }

  /** `s.startswith("00")` */
  predicate HasDoubleZero(s: string) {
    |s| >= 2 && s[0] == '0' && s[1] == '0'
  }

  /** The "00" international prefix becomes "+". */
  function ReplaceDoubleZero(s: string): (r: string)
    ensures HasDoubleZero(s) ==> r == "+" + s[2..]
    ensures !HasDoubleZero(s) ==> r == s
  {
    if HasDoubleZero(s) then "+" + s[2..] else s
  }

  /** A bare ten-digit number gets the "+1" country code. */
  function AddCountryCode(s: string): string {
    if s != "" && s[0] != '+' && |DigitsOnly(s)| == 10 then "+1" + DigitsOnly(s) else s
  }

  /** `_normalize_phone`: `None` for a falsy input; otherwise the dial
      characters of the stripped text, with "00" turned into "+" and a bare
      ten-digit number given "+1". The result can be `Some("")`. */
  function NormalizePhone(p: Option<string>): (r: Option<string>)
    ensures !Present(p) <==> r.None?
    ensures r.Some? ==> forall i :: 0 <= i < |r.value| ==> IsDialChar(r.value[i])
  {
    if !Present(p) then None
    else
      var k := KeepDialChars(Strip(p.value));
      RewritesKeepDialChars(k);
      Some(AddCountryCode(ReplaceDoubleZero(k)))
  }

  predicate AllDialChars(s: string) {
    forall i :: 0 <= i < |s| ==> IsDialChar(s[i])
  }

  lemma RewritesKeepDialChars(k: string)
    requires AllDialChars(k)
    ensures AllDialChars(AddCountryCode(ReplaceDoubleZero(k)))
  {
    ReplaceKeepsDialChars(k);
    AddCodeKeepsDialChars(ReplaceDoubleZero(k));
  }

  lemma ReplaceKeepsDialChars(k: string)
    requires AllDialChars(k)
    ensures AllDialChars(ReplaceDoubleZero(k))
  {
    if HasDoubleZero(k) {
      var r := ReplaceDoubleZero(k);
      forall i | 0 <= i < |r| ensures IsDialChar(r[i]) {
        if i > 0 {
          assert r[i] == k[i + 1];
        }
      }
    }
  }

  lemma AddCodeKeepsDialChars(z: string)
    requires AllDialChars(z)
    ensures AllDialChars(AddCountryCode(z))
  {
    var r := AddCountryCode(z);
    if r != z {
      var ds := DigitsOnly(z);
      forall i | 0 <= i < |r| ensures IsDialChar(r[i]) {
        if i >= 2 {
          assert r[i] == ds[i - 2];
        }
      }
    }
  }

  /** Stripping whitespace keeps every dial character and adds none. */
  lemma StripDialChars(s: string)
    ensures HasDialChar(Strip(s)) <==> HasDialChar(s)
  {
    StripLeftDialChars(s);
    StripRightDialChars(StripLeft(s));
  }

  lemma {:induction false} StripLeftDialChars(s: string)
    ensures HasDialChar(StripLeft(s)) <==> HasDialChar(s)
  {
    if HasDialChar(s) {
      var i :| 0 <= i < |s| && IsDialChar(s[i]);
      StripLeftKeeps(s, i);
    }
    if HasDialChar(StripLeft(s)) {
      var j :| 0 <= j < |StripLeft(s)| && IsDialChar(StripLeft(s)[j]);
      StripLeftFrom(s, j);
    }
  }

  lemma {:induction false} StripLeftKeeps(s: string, i: int)
    requires 0 <= i < |s| && !IsSpace(s[i])
    ensures var l := StripLeft(s); |s| - |l| <= i && l[i - (|s| - |l|)] == s[i]
  {
  }

  lemma {:induction false} StripLeftFrom(s: string, j: int)
    requires 0 <= j < |StripLeft(s)|
    ensures var l := StripLeft(s); l[j] == s[|s| - |l| + j]
  {
  }

  lemma {:induction false} StripRightDialChars(s: string)
    ensures HasDialChar(StripRight(s)) <==> HasDialChar(s)
  {
    var r := StripRight(s);
    if HasDialChar(s) {
      var i :| 0 <= i < |s| && IsDialChar(s[i]);
      assert !IsSpace(s[i]);
      assert r[i] == s[i];
    }
    if HasDialChar(r) {
      var j :| 0 <= j < |r| && IsDialChar(r[j]);
      assert r[j] == s[j];
    }
  }

  /** The "00" and "+1" rewrites turn a non-empty string into a non-empty
      one and leave the empty string alone. */
  lemma RewritesKeepEmptiness(k: string)
    ensures AddCountryCode(ReplaceDoubleZero(k)) != "" <==> k != ""
  {
  }

  /** A normalised phone is non-empty exactly when the input holds a digit or
      a "+"; so `resolve_target` treats any target containing a digit as a
      phone number, even one shaped like a contact id. */
  lemma PhonePresentIff(t: string)
    requires t != ""
    ensures Present(NormalizePhone(Some(t))) <==> HasDialChar(t)
  {
    KeepDialCharsNonEmpty(Strip(t));
    RewritesKeepEmptiness(KeepDialChars(Strip(t)));
    StripDialChars(t);
  }

  /** A string of dial characters is kept whole by the strip and the filter. */
  lemma DialCharsKept(d: string)
    requires d != [] && forall i :: 0 <= i < |d| ==> IsDialChar(d[i])
    ensures KeepDialChars(Strip(d)) == d
  {
    DialCharsStripped(d);
    KeepDialCharsOfDialChars(d);
  }

  lemma DialCharsStripped(d: string)
    requires d != [] && IsDialChar(d[0]) && IsDialChar(d[|d| - 1])
    ensures Strip(d) == d
  {
    StrippedFixed(d);
  }

  /** Normalising dial characters only applies the two rewrites. */
  lemma DialCharsOnlyRewritten(d: string)
    requires d != [] && forall i :: 0 <= i < |d| ==> IsDialChar(d[i])
    ensures NormalizePhone(Some(d)) == Some(AddCountryCode(ReplaceDoubleZero(d)))
  {
    DialCharsKept(d);
  }

  /** A ten-digit number becomes "+1" followed by the digits, unless it
      starts with "00", which becomes "+" and the other eight digits. */
  lemma TenDigitsGetCountryCode(d: string)
    requires |d| == 10 && forall i :: 0 <= i < |d| ==> IsDigit(d[i])
    ensures !HasDoubleZero(d) ==> NormalizePhone(Some(d)) == Some("+1" + d)
    ensures HasDoubleZero(d) ==> NormalizePhone(Some(d)) == Some("+" + d[2..])
  {
    DialCharsOnlyRewritten(d);
    TenDigitsRewrites(d);
  }

  lemma TenDigitsRewrites(d: string)
    requires |d| == 10 && forall i :: 0 <= i < |d| ==> IsDigit(d[i])
    ensures !HasDoubleZero(d) ==> AddCountryCode(ReplaceDoubleZero(d)) == "+1" + d
    ensures HasDoubleZero(d) ==> AddCountryCode(ReplaceDoubleZero(d)) == "+" + d[2..]
  {
    DigitsOnlyOfDigits(d);
  }

  /** The "00" and "+1" rewrites leave a string that neither rewrite
      changes again. */
  lemma RewritesSettled(k: string)
    requires AddCountryCode(ReplaceDoubleZero(k)) != ""
    ensures var r := AddCountryCode(ReplaceDoubleZero(k));
            ReplaceDoubleZero(r) == r && AddCountryCode(r) == r
  {
    var z := ReplaceDoubleZero(k);
    var r := AddCountryCode(z);
    if HasDoubleZero(k) {
      assert z[0] == '+';
      assert r == z;
    } else if r != z {
      assert r[0] == '+';
    }
  }

  /** Normalising a normalised, non-empty phone changes nothing. */
  lemma NormalizeIdempotent(p: Option<string>)
    requires Present(NormalizePhone(p))
    ensures NormalizePhone(NormalizePhone(p)) == NormalizePhone(p)
  {
    RewritesSettled(KeepDialChars(Strip(p.value)));
    DialCharsOnlyRewritten(NormalizePhone(p).value);
  }

  /** `_mask_phone`: "+1***" and the last four digits for a "+1" number of at
      least 12 characters, "***" and the last four for anything of four or
      more characters, otherwise the text itself or "Unknown". */
  function MaskPhone(phone: string): (r: string)
    ensures r != ""
    ensures |Strip(phone)| >= 4 ==> |r| <= 9 && Last(r, 4) == Last(Strip(phone), 4)
    ensures |Strip(phone)| < 4 ==> r == if Strip(phone) == "" then "Unknown" else Strip(phone)
    ensures StartsWith(Strip(phone), "+1") && |Strip(phone)| >= 12 ==> r == "+1***" + Last(Strip(phone), 4)
    ensures !StartsWith(Strip(phone), "+1") && |Strip(phone)| >= 4 ==> r == "***" + Last(Strip(phone), 4)
    ensures 4 <= |Strip(phone)| < 12 ==> r == "***" + Last(Strip(phone), 4)
  {
    var p := Strip(phone);
    if StartsWith(p, "+1") && |p| >= 12 then "+1***" + Last(p, 4)
    else if |p| >= 4 then "***" + Last(p, 4)
    else if p == "" then "Unknown"
    else p
  }

  /** `_short_phone`: "-" for a missing phone, "+1***" and the last four
      digits when there are ten or more digits, otherwise the phone as given. */
  function ShortPhone(p: Option<string>): (r: string)
    ensures !Present(p) ==> r == "-"
    ensures Present(p) && |DigitsOnly(p.value)| >= 10 ==>
              r == "+1***" + Last(DigitsOnly(p.value), 4)
    ensures Present(p) && |DigitsOnly(p.value)| < 10 ==> r == p.value
  {
    if !Present(p) then "-"
    else
      var s := DigitsOnly(p.value);
      if |s| >= 10 then "+1***" + Last(s, 4) else p.value
  }

  lemma {:induction false} DigitsOnlyAppend(a: string, b: string)
    ensures DigitsOnly(a + b) == DigitsOnly(a) + DigitsOnly(b)
    decreases |b|
  {
    if b == [] {
      assert a + b == a;
    } else {
      DigitsOnlyAppend(a, b[..|b| - 1]);
      assert (a + b)[..|a + b| - 1] == a + b[..|b| - 1];
    }
  }

  lemma DigitsOfUsNumber(d: string)
    requires forall i :: 0 <= i < |d| ==> IsDigit(d[i])
    ensures DigitsOnly("+1" + d) == "1" + d
  {
    PlusOneDigits();
    DigitsOnlyAppend("+1", d);
    DigitsOnlyOfDigits(d);
  }

  lemma PlusOneDigits()
    ensures DigitsOnly("+1") == "1"
  {
    var plus: string := "+";
    var one: string := "1";
    assert DigitsOnly(plus) == [] by {
      assert plus[..0] == [];
    }
    assert (plus + one)[..1] == plus;
    assert plus + one == "+1";
  }

  /** For a normalised US number both masks show the same thing. */
  lemma MaskAndShortAgree(d: string)
    requires |d| == 10 && forall i :: 0 <= i < |d| ==> IsDigit(d[i])
    ensures MaskPhone("+1" + d) == ShortPhone(Some("+1" + d)) == "+1***" + d[6..]
  {
    var p := "+1" + d;
    assert !IsSpace(p[0]) && !IsSpace(p[|p| - 1]);
    StrippedFixed(p);
    assert p[..2] == "+1";
    assert Last(p, 4) == d[6..];
    DigitsOfUsNumber(d);
    assert Last("1" + d, 4) == d[6..];
  }

  predicate IsAsciiAlnum(c: char) {
    ('A' <= c <= 'Z') || ('a' <= c <= 'z') || IsDigit(c)
  }

  /** `_looks_like_contact_id`: `[A-Za-z0-9]{10,}` matched in full. */
  predicate LooksLikeContactId(s: string)
    ensures LooksLikeContactId(s) ==> s != "" && forall i :: 0 <= i < |s| ==> !IsSpace(s[i]) && s[i] != '+'
  {
    |s| >= 10 && forall i :: 0 <= i < |s| ==> IsAsciiAlnum(s[i])
  }
}
