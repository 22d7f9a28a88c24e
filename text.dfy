/** Character classes, decimal numerals and the few string operations of the
    Python standard library that the sensor tools rely on: `str.strip`,
    `int(str)`, `str.replace(c, '')` and `str(n)` for a non-negative `n`.
    Only ASCII characters are classified; see README for what that leaves out. */
module Text {

  datatype Option<+T> = None | Some(value: T)

  /** Python's `\d` restricted to ASCII. */
  predicate IsDigit(c: char) { '0' <= c <= '9' }

  /** The ASCII characters for which Python's `str.isspace()` (and hence `\s`,
      `str.strip()` and `int()`) holds: tab, line feed, vertical tab, form feed,
      carriage return, the four information separators and the space. */
  predicate IsSpace(c: char) {
    c == ' ' || ('\t' <= c <= '\r') || ('\U{1C}' <= c <= '\U{1F}')
  }

  /** `[A-Za-z]` */
  predicate IsAsciiLetter(c: char) { ('A' <= c <= 'Z') || ('a' <= c <= 'z') }

  predicate AllDigits(s: string) { forall k :: 0 <= k < |s| ==> IsDigit(s[k]) }

  predicate AllSpaces(s: string) { forall k :: 0 <= k < |s| ==> IsSpace(s[k]) }

  function DigitValue(c: char): (d: nat)
    requires IsDigit(c)
    ensures d < 10
  {
    (c as int) - ('0' as int)
  }

  function DigitChar(d: nat): (c: char)
    requires d < 10
    ensures IsDigit(c) && DigitValue(c) == d
  {
    (('0' as int) + d) as char
  }

  /** The value of a run of decimal digits, most significant first. */
  function DigitsValue(ds: string): nat
    requires AllDigits(ds)
  {
    if ds == [] then 0 else 10 * DigitsValue(ds[..|ds| - 1]) + DigitValue(ds[|ds| - 1])
  }

  /** A numeral as Python's `str` prints a non-negative int. */
  function NatToString(n: nat): (s: string)
    ensures |s| > 0 && AllDigits(s)
    ensures |s| > 1 ==> s[0] != '0'
  {
    if n < 10 then [DigitChar(n)] else NatToString(n / 10) + [DigitChar(n % 10)]
  }

  /** Reading a printed numeral gives back the number. */
  lemma {:induction false} DigitsValueOfNatToString(n: nat)
    ensures DigitsValue(NatToString(n)) == n
  {
    var s := NatToString(n);
    if n >= 10 {
      DigitsValueOfNatToString(n / 10);
      assert s[..|s| - 1] == NatToString(n / 10);
    }
  }

  /** A numeral without a superfluous leading zero is what `str` prints for its value. */
  lemma {:induction false} NatToStringOfDigitsValue(ds: string)
    requires |ds| > 0 && AllDigits(ds)
    requires |ds| > 1 ==> ds[0] != '0'
    ensures NatToString(DigitsValue(ds)) == ds
  {
    if |ds| > 1 {
      var init := ds[..|ds| - 1];
      NatToStringOfDigitsValue(init);
      DigitsValueLowerBound(init);
      assert DigitsValue(ds) / 10 == DigitsValue(init);
      assert DigitsValue(ds) % 10 == DigitValue(ds[|ds| - 1]);
    }
  }

  /** A numeral of k digits with a non-zero first digit is at least 10^(k-1); for k >= 1 that is >= 1. */
  lemma {:induction false} DigitsValueLowerBound(ds: string)
    requires |ds| > 0 && AllDigits(ds) && ds[0] != '0'
    ensures DigitsValue(ds) >= 1
  {
    if |ds| > 1 {
      DigitsValueLowerBound(ds[..|ds| - 1]);
    }
  }

  /** Printing is injective. */
  lemma NatToStringInjective(m: nat, n: nat)
    requires NatToString(m) == NatToString(n)
    ensures m == n
  {
    DigitsValueOfNatToString(m);
    DigitsValueOfNatToString(n);
  }

  /** `s.lstrip()` */
  function StripLeft(s: string): (r: string)
    ensures |r| <= |s| && r == s[|s| - |r|..]
    ensures forall k :: 0 <= k < |s| - |r| ==> IsSpace(s[k])
    ensures r == [] || !IsSpace(r[0])
  {
    if s != [] && IsSpace(s[0]) then StripLeft(s[1..]) else s
  }

  /** `s.rstrip()` */
  function StripRight(s: string): (r: string)
    ensures |r| <= |s| && r == s[..|r|]
    ensures forall k :: |r| <= k < |s| ==> IsSpace(s[k])
    ensures r == [] || !IsSpace(r[|r| - 1])
  {
    if s != [] && IsSpace(s[|s| - 1]) then StripRight(s[..|s| - 1]) else s
  }

  /** `s.strip()` */
  function Strip(s: string): string
  {
    StripRight(StripLeft(s))
  }

  /** Stripping a string that has no surrounding white space changes nothing,
      so `strip()` is idempotent. */
  lemma StripTrimmed(s: string)
    requires s == [] || (!IsSpace(s[0]) && !IsSpace(s[|s| - 1]))
    ensures Strip(s) == s
  {
  }

  lemma StripIdempotent(s: string)
    ensures Strip(Strip(s)) == Strip(s)
  {
    var l := StripLeft(s);
    var r := StripRight(l);
    if r != [] {
      assert r[0] == l[0];
    }
    StripTrimmed(r);
  }

  /** `s.replace(c, '')`: every occurrence of `c` removed, the rest kept in order. */
  function RemoveAll(s: string, c: char): (r: string)
    ensures c !in r
    ensures forall x :: x in r <==> x in s && x != c
    ensures |r| <= |s|
  {
    if s == [] then [] else (if s[0] == c then [] else [s[0]]) + RemoveAll(s[1..], c)
  }

  lemma {:induction false} RemoveAllAbsent(s: string, c: char)
    requires c !in s
    ensures RemoveAll(s, c) == s
  {
    if s != [] {
      RemoveAllAbsent(s[1..], c);
    }
  }

  lemma {:induction false} RemoveAllAppend(a: string, b: string, c: char)
    ensures RemoveAll(a + b, c) == RemoveAll(a, c) + RemoveAll(b, c)
  {
    if a == [] {
      assert a + b == b;
    } else {
      assert (a + b)[0] == a[0];
      assert (a + b)[1..] == a[1..] + b;
      RemoveAllAppend(a[1..], b, c);
    }
  }

  /** The text before the first `c` (all of `s` when there is none). */
  function TakeUntil(s: string, c: char): (r: string)
    ensures |r| <= |s| && r == s[..|r|]
    ensures c !in r
    ensures |r| == |s| || s[|r|] == c
  {
    if s == [] || s[0] == c then [] else [s[0]] + TakeUntil(s[1..], c)
  }

  /** The text after the last `c` (all of `s` when there is none): Python's `s.split(c)[-1]`. */
  function AfterLast(s: string, c: char): (r: string)
    ensures |r| <= |s| && r == s[|s| - |r|..]
    ensures c !in r
    ensures |r| == |s| || s[|s| - |r| - 1] == c
  {
    if s == [] then [] else if s[|s| - 1] == c then [] else AfterLast(s[..|s| - 1], c) + [s[|s| - 1]]
  }

  lemma {:induction false} AfterLastAppend(a: string, b: string, c: char)
    requires c !in b
    ensures AfterLast(a + [c] + b, c) == b
  {
    if b != [] {
      var s := a + [c] + b;
      assert s[..|s| - 1] == a + [c] + b[..|b| - 1];
      AfterLastAppend(a, b[..|b| - 1], c);
    } else {
      assert (a + [c] + b)[|a|] == c;
    }
  }

  /** Pieces of text written one after another, with nothing between them. */
  function Join(parts: seq<string>): (s: string)
    ensures |parts| == 0 ==> s == []
    ensures |parts| == 1 ==> s == parts[0]
  {
    if parts == [] then [] else parts[0] + Join(parts[1..])
  }

  /** Writing two runs of pieces in turn writes their concatenation. */
  lemma {:induction false} JoinAppend(a: seq<string>, b: seq<string>)
    ensures Join(a + b) == Join(a) + Join(b)
  {
    if a == [] {
      assert a + b == b;
    } else {
      assert (a + b)[1..] == a[1..] + b;
      JoinAppend(a[1..], b);
    }
  }

  predicate DigitOrUnderscore(c: char) { IsDigit(c) || c == '_' }

  /** The digits of Python's integer literal grammar inside `int()`: digits,
      optionally grouped by single underscores; no leading, trailing or doubled `_`. */
  predicate DigitGroups(t: string) {
    && |t| > 0
    && IsDigit(t[0]) && IsDigit(t[|t| - 1])
    && (forall k :: 0 <= k < |t| ==> DigitOrUnderscore(t[k]))
    && (forall k :: 0 <= k < |t| - 1 ==> t[k] == '_' ==> t[k + 1] != '_')
  }

  /** The value of digits grouped by underscores, the underscores ignored. */
  function GroupedValue(t: string): nat
    requires forall k :: 0 <= k < |t| ==> DigitOrUnderscore(t[k])
  {
    if t == [] then 0
    else if t[|t| - 1] == '_' then GroupedValue(t[..|t| - 1])
    else
      assert DigitOrUnderscore(t[|t| - 1]);
      10 * GroupedValue(t[..|t| - 1]) + DigitValue(t[|t| - 1])
  }

  lemma {:induction false} GroupedValueOfDigits(ds: string)
    requires AllDigits(ds)
    ensures GroupedValue(ds) == DigitsValue(ds)
  {
    if ds != [] {
      GroupedValueOfDigits(ds[..|ds| - 1]);
    }
  }

  /** Python's `int(s)` for a `str` in base 10: `Some(n)` when it returns n,
      `None` when it raises ValueError. */
  function ParsePyInt(s: string): Option<int>
  {
    ParseSigned(Strip(s))
  }

  /** An optional sign followed by digit groups. */
  function ParseSigned(t: string): Option<int>
  {
    if |t| > 0 && t[0] == '-' then
      match ParseUnsigned(t[1..]) {
        case Some(v) => Some(-(v as int))
        case None => None
      }
    else if |t| > 0 && t[0] == '+' then
      match ParseUnsigned(t[1..]) {
        case Some(v) => Some(v as int)
        case None => None
      }
    else
      match ParseUnsigned(t) {
        case Some(v) => Some(v as int)
        case None => None
      }
  }

  function ParseUnsigned(body: string): Option<nat>
  {
    if DigitGroups(body) then Some(GroupedValue(body)) else None
  }

  lemma ParseUnsignedOfDigits(ds: string)
    requires |ds| > 0 && AllDigits(ds)
    ensures ParseUnsigned(ds) == Some(DigitsValue(ds))
  {
    GroupedValueOfDigits(ds);
  }

  /** `int(ds) == DigitsValue(ds)` for a plain run of digits. */
  lemma ParsePyIntOfDigits(ds: string)
    requires |ds| > 0 && AllDigits(ds)
    ensures ParsePyInt(ds) == Some(DigitsValue(ds))
  {
    assert IsDigit(ds[0]) && IsDigit(ds[|ds| - 1]);
    assert Strip(ds) == ds by {
      StripTrimmed(ds);
    }
    assert ParseSigned(ds) == Some(DigitsValue(ds) as int) by {
      ParseUnsignedOfDigits(ds);
    }
  }

  /** `int` of a single digit is its value. */
  lemma ParsePyIntOfDigit(d: string)
    requires |d| == 1 && IsDigit(d[0])
    ensures ParsePyInt(d) == Some(DigitValue(d[0]) as int)
  {
    ParsePyIntOfDigits(d);
    assert d[..0] == [];
  }

  /** `int` strips its argument itself, so stripping first changes nothing. */
  lemma ParsePyIntOfStrip(s: string)
    ensures ParsePyInt(Strip(s)) == ParsePyInt(s)
  {
    StripIdempotent(s);
  }

  lemma ParseSignedNegative(ds: string, n: nat)
    requires |ds| > 0 && AllDigits(ds) && DigitsValue(ds) == n
    ensures ParseSigned("-" + ds) == Some(-(n as int))
  {
    ParseUnsignedOfDigits(ds);
    assert ("-" + ds)[1..] == ds;
  }

  /** `int('-' + ds)` is minus the value of the digit run ds. */
  lemma ParsePyIntOfNegativeDigits(ds: string, n: nat)
    requires |ds| > 0 && AllDigits(ds) && DigitsValue(ds) == n
    ensures ParsePyInt("-" + ds) == Some(-(n as int))
  {
    var t := "-" + ds;
    assert Strip(t) == t by {
      assert t[0] == '-' && t[|t| - 1] == ds[|ds| - 1];
      StripTrimmed(t);
    }
    ParseSignedNegative(ds, n);
  }

  /** `int(str(n)) == n` and `int('-' + str(n)) == -n` */
  lemma ParsePyIntOfNatToString(n: nat)
    ensures ParsePyInt(NatToString(n)) == Some(n)
    ensures ParsePyInt("-" + NatToString(n)) == Some(-(n as int))
  {
    DigitsValueOfNatToString(n);
    ParsePyIntOfDigits(NatToString(n));
    ParsePyIntOfNegativeDigits(NatToString(n), n);
  }

  /** `int()` raises ValueError on a string with no digit in it, the empty string among them. */
  lemma ParsePyIntNeedsDigit(s: string)
    requires forall k :: 0 <= k < |s| ==> !IsDigit(s[k])
    ensures ParsePyInt(s) == None
  {
    var l := StripLeft(s);
    var t := StripRight(l);
    assert forall k :: 0 <= k < |t| ==> t[k] == s[|s| - |l| + k];
    ParseSignedNeedsDigit(t);
  }

  lemma ParseSignedNeedsDigit(t: string)
    requires forall k :: 0 <= k < |t| ==> !IsDigit(t[k])
    ensures ParseSigned(t) == None
  {
    assert !DigitGroups(t);
    if |t| > 0 {
      assert |t[1..]| > 0 ==> t[1..][0] == t[1];
      assert !DigitGroups(t[1..]);
    }
  }
}
