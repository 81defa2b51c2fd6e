/** Searching and trimming strings. */
module Strings {
  import opened Wrappers

  /** The first place where `p` occurs in `s`. */
  function Find(s: string, p: string): Option<nat> {
    if p <= s then Some(0)
    else if s == "" then None
    else
      match Find(s[1..], p)
      case None => None
      case Some(i) => Some(i + 1)
  }

  lemma {:induction false} FindIsFirst(s: string, p: string)
    ensures match Find(s, p)
            case Some(i) => i <= |s| && p <= s[i..] && forall j :: 0 <= j < i ==> !(p <= s[j..])
            case None => forall j :: 0 <= j <= |s| ==> !(p <= s[j..])
  {
    assert s[0..] == s;
    if !(p <= s) && s != "" {
      FindIsFirst(s[1..], p);
      forall j | 1 <= j <= |s|
        ensures s[1..][j - 1..] == s[j..]
      {
      }
      var rest := Find(s[1..], p);
      var limit := if rest.None? then |s| else rest.value;
      forall j | 0 <= j <= limit
        ensures j == 0 || s[1..][j - 1..] == s[j..]
      {
      }
    }
  }

  /** What precedes the first place where the rest could match is passed over. */
  lemma {:induction false} FindSkips(a: string, b: string, p: string)
    requires forall i :: 0 <= i < |a| ==> !(p <= (a + b)[i..])
    ensures Find(a + b, p) == (match Find(b, p) case None => None case Some(i) => Some(|a| + i))
  {
    if a == "" {
      assert a + b == b;
    } else {
      assert (a + b)[0..] == a + b && (a + b)[1..] == a[1..] + b;
      forall i | 0 <= i < |a[1..]|
        ensures !(p <= (a[1..] + b)[i..])
      {
        assert (a[1..] + b)[i..] == (a + b)[i + 1..];
      }
      FindSkips(a[1..], b, p);
    }
  }

  /** A character that `a` does not contain. */
  lemma FindChar(a: string, c: char, b: string)
    requires c !in a
    ensures Find(a + [c] + b, [c]) == Some(|a|)
  {
    var rest := [c] + b;
    assert a + [c] + b == a + rest;
    forall i | 0 <= i < |a|
      ensures !([c] <= (a + rest)[i..])
    {
      assert (a + rest)[i..][0] == a[i];
    }
    FindSkips(a, rest, [c]);
    assert [c] <= rest;
  }

  lemma {:induction false} FindAbsent(s: string, c: char)
    requires c !in s
    ensures Find(s, [c]) == None
  {
    if s != "" {
      assert s[0] != c;
      FindAbsent(s[1..], c);
    }
  }

  /** Space, tab, carriage return and newline. */
  predicate IsBlank(c: char) {
    c == ' ' || c == '\t' || c == '\r' || c == '\n'
  }

  function TrimLeft(s: string): string {
    if s != "" && IsBlank(s[0]) then TrimLeft(s[1..]) else s
  }

  function TrimRight(s: string): string {
    if s != "" && IsBlank(s[|s| - 1]) then TrimRight(s[..|s| - 1]) else s
  }

  function Trim(s: string): string {
    TrimRight(TrimLeft(s))
  }

  ghost predicate AllBlank(s: string) {
    forall c :: c in s ==> IsBlank(c)
  }

  ghost predicate Tight(s: string) {
    s == "" || (!IsBlank(s[0]) && !IsBlank(s[|s| - 1]))
  }

  lemma {:induction false} TrimLeftOf(a: string, s: string)
    requires AllBlank(a) && (s == "" || !IsBlank(s[0]))
    ensures TrimLeft(a + s) == s
  {
    if a == "" {
      assert a + s == s;
    } else {
      assert a[0] in a && (a + s)[1..] == a[1..] + s;
      TrimLeftOf(a[1..], s);
    }
  }

  lemma {:induction false} TrimLeftSplits(s: string) returns (a: string)
    ensures s == a + TrimLeft(s) && AllBlank(a) && (TrimLeft(s) == "" || !IsBlank(TrimLeft(s)[0]))
  {
    a := "";
    if s != "" && IsBlank(s[0]) {
      a := TrimLeftSplits(s[1..]);
      a := [s[0]] + a;
    }
  }

  lemma {:induction false} TrimRightSplits(s: string) returns (b: string)
    ensures s == TrimRight(s) + b && AllBlank(b) && (TrimRight(s) == "" || !IsBlank(TrimRight(s)[|TrimRight(s)| - 1]))
  {
    b := "";
    if s != "" && IsBlank(s[|s| - 1]) {
      b := TrimRightSplits(s[..|s| - 1]);
      b := b + [s[|s| - 1]];
    }
  }

  /** Every string is its trimmed form between blanks. */
  lemma TrimSplits(s: string) returns (a: string, b: string)
    ensures s == a + Trim(s) + b && AllBlank(a) && AllBlank(b) && Tight(Trim(s))
  {
    a := TrimLeftSplits(s);
    b := TrimRightSplits(TrimLeft(s));
  }

  lemma {:induction false} TrimRightOf(s: string, b: string)
    requires AllBlank(b) && Tight(s)
    ensures TrimRight(s + b) == s
  {
    if b == "" {
      assert s + b == s;
    } else {
      assert b[|b| - 1] in b && (s + b)[..|s + b| - 1] == s + b[..|b| - 1];
      TrimRightOf(s, b[..|b| - 1]);
    }
  }

  /** Trimming removes the blanks on both sides and nothing else. */
  lemma TrimOf(a: string, s: string, b: string)
    requires AllBlank(a) && AllBlank(b) && Tight(s)
    ensures Trim(a + s + b) == s
  {
    if s == "" {
      assert a + s + b == (a + b) + "";
      TrimLeftOf(a + b, "");
    } else {
      assert a + s + b == a + (s + b) && (s + b)[0] == s[0];
      TrimLeftOf(a, s + b);
      TrimRightOf(s, b);
    }
  }
}

/** Decimal numbers and truth values as text. */
module Values {
  import opened Bytes
  import opened Strings
  import opened Wrappers

  const TWO_16: nat := 0x1_0000
  const TWO_32: nat := 0x1_0000_0000
  const TWO_64: nat := 0x1_0000_0000_0000_0000

  predicate IsDigit(c: char) {
    '0' <= c <= '9'
  }

  function Digit(d: nat): (c: char)
    requires d < 10
    ensures IsDigit(c) && c as int - '0' as int == d
  {
    ('0' as int + d) as char
  }

  function Decimal(n: nat): string {
    if n < 10 then [Digit(n)] else Decimal(n / 10) + [Digit(n % 10)]
  }

  function Number(digits: string): nat
    requires forall c :: c in digits ==> IsDigit(c)
  {
    if digits == "" then 0
    else
      var last := |digits| - 1;
      assert digits[last] in digits && IsDigit(digits[last]);
      Number(digits[..last]) * 10 + (digits[last] as int - '0' as int)
  }

  function LeadingDigits(s: string): (digits: string)
    ensures forall c :: c in digits ==> IsDigit(c)
  {
    if s != "" && IsDigit(s[0]) then [s[0]] + LeadingDigits(s[1..]) else ""
  }

  /** White space in the C locale, which has a vertical tab and a form feed besides the blanks. */
  predicate IsSpace(c: char) {
    IsBlank(c) || c == '\U{00000B}' || c == '\U{00000C}'
  }

  function SkipSpace(s: string): string {
    if s != "" && IsSpace(s[0]) then SkipSpace(s[1..]) else s
  }

  /**
   Conversion to a 64-bit unsigned number: the digits after spaces and an optional sign; what follows them is ignored, a
   negative number wraps around, and no digits at all or too large a number is an error.
  */
  function Stoull(s: string): Option<nat> {
    var t := SkipSpace(s);
    var negative := t != "" && t[0] == '-';
    var digits := LeadingDigits(if t != "" && (t[0] == '-' || t[0] == '+') then t[1..] else t);
    if digits == "" || Number(digits) >= TWO_64 then None
    else Some(if negative then (TWO_64 - Number(digits)) % TWO_64 else Number(digits))
  }

  /** A conversion to a narrower type truncates. */
  function ParseUnsigned(value: string, modulus: nat): Option<nat>
    requires modulus > 0
  {
    match Stoull(Trim(value))
    case None => None
    case Some(n) => Some(n % modulus)
  }

  function ParseBool(value: string): Option<bool> {
    var v := Trim(value);
    if v == "true" || v == "1" then Some(true)
    else if v == "false" || v == "0" then Some(false)
    else None
  }

  function BoolText(b: bool): string {
    if b then "true" else "false"
  }

  lemma {:induction false} DecimalDigits(n: nat)
    ensures Decimal(n) != "" && forall c :: c in Decimal(n) ==> IsDigit(c)
    ensures Number(Decimal(n)) == n
  {
    if n < 10 {
      assert Decimal(n)[..0] == "";
    } else {
      DecimalDigits(n / 10);
      assert Decimal(n)[..|Decimal(n)| - 1] == Decimal(n / 10);
    }
  }

  lemma {:induction false} LeadingDigitsOf(digits: string, rest: string)
    requires (forall c :: c in digits ==> IsDigit(c)) && (rest == "" || !IsDigit(rest[0]))
    ensures LeadingDigits(digits + rest) == digits
  {
    if digits == "" {
      assert digits + rest == rest;
    } else {
      assert digits[0] in digits && (digits + rest)[1..] == digits[1..] + rest;
      LeadingDigitsOf(digits[1..], rest);
    }
  }

  lemma {:induction false} SkipSpaceOf(space: string, s: string)
    requires (forall c :: c in space ==> IsSpace(c)) && (s == "" || !IsSpace(s[0]))
    ensures SkipSpace(space + s) == s
  {
    if space == "" {
      assert space + s == s;
    } else {
      assert space[0] in space && (space + s)[1..] == space[1..] + s;
      SkipSpaceOf(space[1..], s);
    }
  }

  /** Conversion reads spaces, a sign and digits, ignores what follows, wraps a negative number, and refuses a larger one. */
  lemma StoullReads(space: string, sign: string, digits: string, rest: string)
    requires (forall c :: c in space ==> IsSpace(c)) && sign in {"", "-", "+"}
    requires digits != "" && (forall c :: c in digits ==> IsDigit(c)) && (rest == "" || !IsDigit(rest[0]))
    ensures Stoull(space + (sign + (digits + rest))) ==
            if Number(digits) >= TWO_64 then None
            else if sign == "-" && Number(digits) > 0 then Some(TWO_64 - Number(digits))
            else Some(Number(digits))
  {
    hide SkipSpace, LeadingDigits, Number;
    var t := sign + (digits + rest);
    assert digits[0] in digits;
    assert sign == "" ==> t == digits + rest;
    assert sign != "" ==> t[1..] == digits + rest;
    SkipSpaceOf(space, t);
    LeadingDigitsOf(digits, rest);
  }

  /** Without digits there is no number. */
  lemma StoullRefuses(space: string, sign: string, rest: string)
    requires (forall c :: c in space ==> IsSpace(c)) && sign in {"", "-", "+"}
    requires rest == "" || (!IsDigit(rest[0]) && !(sign == "" && (IsSpace(rest[0]) || rest[0] == '-' || rest[0] == '+')))
    ensures Stoull(space + (sign + rest)) == None
  {
    hide SkipSpace;
    var t := sign + rest;
    assert sign == "" ==> t == rest;
    assert sign != "" ==> t[1..] == rest;
    SkipSpaceOf(space, t);
  }

  lemma {:induction false} LeadingDigitsOfAll(s: string)
    requires forall c :: c in s ==> IsDigit(c)
    ensures LeadingDigits(s) == s
  {
    if s != "" {
      assert s[0] in s;
      LeadingDigitsOfAll(s[1..]);
    }
  }

  lemma StoullOfDecimal(n: nat)
    ensures Trim(Decimal(n)) == Decimal(n)
    ensures Stoull(Decimal(n)) == if n < TWO_64 then Some(n) else None
  {
    hide Decimal, Number, LeadingDigits, Trim;
    var s := Decimal(n);
    DecimalDigits(n);
    assert s[0] in s && s[|s| - 1] in s;
    assert Tight(s);
    assert "" + s + "" == s;
    TrimOf("", s, "");
    LeadingDigitsOfAll(s);
    assert SkipSpace(s) == s;
  }

  /** A printed number parses back exactly when it is in range; a larger one is truncated, or refused from 64 bits on. */
  lemma DecimalRoundTrip(n: nat, modulus: nat)
    requires 0 < modulus <= TWO_64
    ensures ParseUnsigned(Decimal(n), modulus) == (if n < TWO_64 then Some(n % modulus) else None)
    ensures ParseUnsigned(Decimal(n), modulus) == Some(n) <==> n < modulus
  {
    hide Decimal, Stoull, Trim;
    StoullOfDecimal(n);
    if n < modulus {
      ModUnique(n, modulus, 0, n);
    }
  }

  /** A truth value is read between blanks, as a word or as a digit. */
  lemma BoolReads(a: string, word: string, b: string)
    requires AllBlank(a) && AllBlank(b) && word in {"true", "1", "false", "0"}
    ensures ParseBool(a + word + b) == Some(word == "true" || word == "1")
  {
    assert Tight("true") && Tight("1") && Tight("false") && Tight("0");
    TrimOf(a, word, b);
  }

  lemma BoolRoundTrip(b: bool)
    ensures ParseBool(BoolText(b)) == Some(b)
  {
  }
}
