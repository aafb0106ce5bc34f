/**
 * Strings: the string helpers. `GetTrailingNumber` splits a name such as
 * "detail128" or "Col -1" into the name and the number at its end (the
 * detail size in mesh names); `StartsWith` is the prefix test used to name
 * collision details.
 */
module Strings {
  import opened Bytes
  import Stream

  /** `isspace` in the C locale. */
  predicate IsSpace(c: char)
  {
    c == ' ' || c == '\t' || c == '\n' || c == '\U{B}' || c == '\U{C}' || c == '\r'
  }

  /** `isdigit`. */
  predicate IsDigit(c: char)
  {
    '0' <= c <= '9'
  }

  predicate AllSpace(s: string)
  {
    forall i :: 0 <= i < |s| ==> IsSpace(s[i])
  }

  predicate AllDigits(s: string)
  {
    forall i :: 0 <= i < |s| ==> IsDigit(s[i])
  }

  /** The value of a run of decimal digits. */
  function DecimalValue(ds: string): (n: nat)
    requires AllDigits(ds)
  {
    if |ds| == 0 then 0
    else 10 * DecimalValue(ds[..|ds| - 1]) + (ds[|ds| - 1] as int - '0' as int)
  }

  /** The longest prefix of s made of digits. */
  function LeadingDigits(s: string): (ds: string)
    ensures AllDigits(ds)
  {
    if |s| == 0 || !IsDigit(s[0]) then [] else [s[0]] + LeadingDigits(s[1..])
  }

  /** s without its leading whitespace. */
  function DropSpaces(s: string): (t: string)
    ensures |t| <= |s|
  {
    if |s| == 0 || !IsSpace(s[0]) then s else DropSpaces(s[1..])
  }

  /** `atoi`: leading whitespace, an optional sign, then digits; 0 when there
      are none. */
  function Atoi(s: string): int
  {
    var t := DropSpaces(s);
    var magnitude: int := if |t| > 0 && (t[0] == '-' || t[0] == '+')
      then DecimalValue(LeadingDigits(t[1..])) else DecimalValue(LeadingDigits(t));
    if |t| > 0 && t[0] == '-' then -magnitude else magnitude
  }

  /** The pointer walk `while (p != start && isspace(*p)) p--`. */
  function BackOverSpaces(s: string, p: nat): (q: nat)
    requires p < |s|
    ensures q <= p
  {
    if p == 0 || !IsSpace(s[p]) then p else BackOverSpaces(s, p - 1)
  }

  /** The pointer walk `while (p != start && isdigit(*p)) p--`. */
  function BackOverDigits(s: string, p: nat): (q: nat)
    requires p < |s|
    ensures q <= p
  {
    if p == 0 || !IsDigit(s[p]) then p else BackOverDigits(s, p - 1)
  }

  /** s without its trailing whitespace. */
  function TrimEnd(s: string): (t: string)
    ensures |t| <= |s|
  {
    if |s| == 0 || !IsSpace(s[|s| - 1]) then s else TrimEnd(s[..|s| - 1])
  }

  /** What `GetTrailingNumber` returns and leaves in `number`, for the C
      string in str (None is the null pointer). */
  function TrailingNumber(str: Option<string>, number: int): (string, int)
  {
    if str.None? then ("", number) else SplitNumber(Stream.CStr(str.value), number)
  }

  /** The split of a string without NULs. */
  function SplitNumber(s: string, number: int): (string, int)
  {
    if |s| == 0 then ("", number)
    else
      var p := BackOverSpaces(s, |s| - 1);
      if !IsDigit(s[p]) then (s, number) else SplitAtRun(s, BackOverDigits(s, p))
  }

  /** The split once the digit walk stopped at q: a '-' or '_' there negates
      the number and is dropped; a walk that reached the first character
      parses from it and leaves no name. */
  function SplitAtRun(s: string, q: nat): (string, int)
    requires q < |s|
  {
    if s[q] == '-' || s[q] == '_' then (TrimEnd(s[..q]), -Atoi(s[q + 1..]))
    else if q == 0 then ("", Atoi(s))
    else (TrimEnd(s[..q + 1]), Atoi(s[q + 1..]))
  }

  /** `String::GetTrailingNumber`, walking a pointer backwards over the
      string as the source does. */
  method GetTrailingNumber(str: Option<string>, number: int) returns (name: string, newNumber: int)
    ensures (name, newNumber) == TrailingNumber(str, number)
  {
    if str.None? {
      return "", number;
    }
    var base := Stream.CStr(str.value);
    if |base| == 0 {
      return "", number;
    }
    var p := SkipTrailingSpace(base);
    if !IsDigit(base[p]) {
      return base, number;
    }
    p := SkipDigits(base, p);
    name, newNumber := SplitAt(base, p);
  }

  /** The tail of `GetTrailingNumber` once the digit walk stopped at p. */
  method SplitAt(base: string, p: nat) returns (name: string, newNumber: int)
    requires p < |base|
    ensures (name, newNumber) == SplitAtRun(base, p)
  {
    var cut: nat;
    if base[p] == '-' || base[p] == '_' {
      newNumber := -Atoi(base[p + 1..]);
      cut := p;
    } else if p == 0 {
      newNumber := Atoi(base);
      cut := p;
    } else {
      cut := p + 1;
      newNumber := Atoi(base[cut..]);
    }
    name := RemoveSpaceBefore(base, cut);
    ghost var r := SplitAtRun(base, p);
    assert name == r.0 && newNumber == r.1;
  }

  /** `while ((p != start) && isspace(*p)) p--` from the last character. */
  method SkipTrailingSpace(base: string) returns (p: nat)
    requires |base| > 0
    ensures p == BackOverSpaces(base, |base| - 1)
  {
    p := |base| - 1;
    while p != 0 && IsSpace(base[p])
      invariant p < |base|
      invariant BackOverSpaces(base, p) == BackOverSpaces(base, |base| - 1)
    {
      p := p - 1;
    }
  }

  /** `while ((p != start) && isdigit(*p)) p--`. */
  method SkipDigits(base: string, start: nat) returns (p: nat)
    requires start < |base|
    ensures p == BackOverDigits(base, start)
  {
    p := start;
    while p != 0 && IsDigit(base[p])
      invariant p <= start
      invariant BackOverDigits(base, p) == BackOverDigits(base, start)
    {
      p := p - 1;
    }
  }

  /** `while ((p > start) && isspace(*(p - 1))) p--`, then the text before
      p. */
  method RemoveSpaceBefore(base: string, cut: nat) returns (name: string)
    requires cut <= |base|
    ensures name == TrimEnd(base[..cut])
  {
    var p: nat := cut;
    while p > 0 && IsSpace(base[p - 1])
      invariant p <= cut
      invariant TrimEnd(base[..p]) == TrimEnd(base[..cut])
    {
      assert base[..p - 1] == base[..p][..p - 1];
      p := p - 1;
    }
    assert TrimEnd(base[..p]) == base[..p];
    name := base[..p];
  }

  lemma {:induction false} LeadingDigitsOf(ds: string, rest: string)
    requires AllDigits(ds)
    requires |rest| > 0 ==> !IsDigit(rest[0])
    ensures LeadingDigits(ds + rest) == ds
  {
    if |ds| > 0 {
      assert (ds + rest)[1..] == ds[1..] + rest;
      LeadingDigitsOf(ds[1..], rest);
    }
  }

  /** atoi of a digit run followed by whitespace is the run's value. */
  lemma AtoiDigits(ds: string, trail: string)
    requires |ds| > 0 && AllDigits(ds) && AllSpace(trail)
    ensures Atoi(ds + trail) == DecimalValue(ds)
  {
    var s := ds + trail;
    assert DropSpaces(s) == s;
    if |trail| > 0 {
      assert !IsDigit(trail[0]);
    }
    LeadingDigitsOf(ds, trail);
  }

  /** The walk over trailing spaces stops at the last non-space character. */
  lemma SpacesWalk(lead: string, trail: string)
    requires |lead| > 0 && !IsSpace(lead[|lead| - 1]) && AllSpace(trail)
    ensures BackOverSpaces(lead + trail, |lead| + |trail| - 1) == |lead| - 1
  {
    var s := lead + trail;
    forall i | |lead| <= i < |s|
      ensures IsSpace(s[i])
    {
      assert s[i] == trail[i - |lead|];
    }
    BackOverSpacesFrom(s, |lead|, |s| - 1);
  }

  lemma {:induction false} BackOverSpacesFrom(s: string, n: nat, p: nat)
    requires 0 < n <= p + 1 <= |s| && !IsSpace(s[n - 1])
    requires forall i :: n <= i < |s| ==> IsSpace(s[i])
    ensures BackOverSpaces(s, p) == n - 1
    decreases p
  {
    if p >= n {
      BackOverSpacesFrom(s, n, p - 1);
    }
  }

  /** The walk over a digit run stops at the character before it. */
  lemma DigitsWalk(lead: string, ds: string, trail: string)
    requires |lead| > 0 && !IsDigit(lead[|lead| - 1]) && |ds| > 0 && AllDigits(ds)
    ensures BackOverDigits(lead + ds + trail, |lead| + |ds| - 1) == |lead| - 1
  {
    var s := lead + ds + trail;
    var m := |lead| - 1;
    forall i | m < i <= m + |ds|
      ensures IsDigit(s[i])
    {
      assert s[i] == ds[i - m - 1];
    }
    assert s[m] == lead[m];
    BackOverDigitsFrom(s, m, m + |ds|);
  }

  lemma {:induction false} BackOverDigitsFrom(s: string, m: nat, p: nat)
    requires m <= p < |s| && !IsDigit(s[m])
    requires forall i :: m < i <= p ==> IsDigit(s[i])
    ensures BackOverDigits(s, p) == m
    decreases p
  {
    if p > m {
      BackOverDigitsFrom(s, m, p - 1);
    }
  }

  /** A name, optional whitespace and a digit run (with optional trailing
      whitespace) split back into the name and the run's value, provided
      the digit walk stops after the first character. */
  lemma {:induction false} SplitUnsigned(name: string, sep: string, ds: string, trail: string, number: int)
    requires |name| > 0 && !IsSpace(name[|name| - 1]) && AllSpace(sep) && |name| + |sep| > 1
    requires sep == [] ==> !IsDigit(name[|name| - 1]) && name[|name| - 1] != '-' && name[|name| - 1] != '_'
    requires |ds| > 0 && AllDigits(ds) && AllSpace(trail)
    ensures SplitNumber((name + sep) + (ds + trail), number) == (name, DecimalValue(ds))
  {
    var lead, tail := name + sep, ds + trail;
    var s := lead + tail;
    var m := |lead| - 1;
    assert lead[m] == if sep == [] then name[|name| - 1] else sep[|sep| - 1];
    Walks(lead, ds, trail, number);
    assert s[m] == lead[m];
    Halves(lead, tail);
    AtoiDigits(ds, trail);
    TrimEndOf(name, sep);
  }

  /** A name, a '-' or '_' and a digit run split back into the name and the
      negated value. */
  lemma {:induction false} SplitSigned(name: string, sign: char, ds: string, trail: string, number: int)
    requires |name| > 0 && !IsSpace(name[|name| - 1])
    requires sign == '-' || sign == '_'
    requires |ds| > 0 && AllDigits(ds) && AllSpace(trail)
    ensures SplitNumber((name + [sign]) + (ds + trail), number) == (name, -(DecimalValue(ds) as int))
  {
    var lead, tail := name + [sign], ds + trail;
    assert lead[|lead| - 1] == sign;
    SignDropped(name, sign);
    AtoiDigits(ds, trail);
    SignedRun(lead, tail, number);
    Walks(lead, ds, trail, number);
    var r := SplitNumber(lead + tail, number);
    assert r.0 == name && r.1 == -(DecimalValue(ds) as int);
  }

  lemma SignDropped(name: string, sign: char)
    requires |name| > 0 && !IsSpace(name[|name| - 1])
    ensures TrimEnd((name + [sign])[..|name|]) == name
  {
    assert (name + [sign])[..|name|] == name;
  }

  /** Both walks over lead + ds + trail. */
  lemma Walks(lead: string, ds: string, trail: string, number: int)
    requires |lead| > 0 && !IsDigit(lead[|lead| - 1])
    requires |ds| > 0 && AllDigits(ds) && AllSpace(trail)
    ensures SplitNumber(lead + (ds + trail), number) == SplitAtRun(lead + (ds + trail), |lead| - 1)
  {
    var s := lead + (ds + trail);
    assert s == (lead + ds) + trail;
    assert !IsSpace(ds[|ds| - 1]);
    SpacesWalk(lead + ds, trail);
    assert s[|lead| + |ds| - 1] == ds[|ds| - 1];
    DigitsWalk(lead, ds, trail);
    SplitNumberAt(s, |lead| + |ds| - 1, |lead| - 1, number);
  }

  lemma SplitNumberAt(s: string, n: nat, m: nat, number: int)
    requires n < |s| && BackOverSpaces(s, |s| - 1) == n && IsDigit(s[n]) && BackOverDigits(s, n) == m
    ensures SplitNumber(s, number) == SplitAtRun(s, m)
  {
  }

  lemma SignedRun(lead: string, tail: string, number: int)
    requires |lead| > 0 && (lead[|lead| - 1] == '-' || lead[|lead| - 1] == '_')
    ensures SplitAtRun(lead + tail, |lead| - 1) == (TrimEnd(lead[..|lead| - 1]), -Atoi(tail))
  {
    var s, m := lead + tail, |lead| - 1;
    assert s[m] == lead[m];
    assert s[..m] == lead[..m];
    assert s[m + 1..] == tail;
  }

  lemma Halves(a: string, b: string)
    ensures (a + b)[..|a|] == a && (a + b)[|a|..] == b
  {
  }

  lemma {:induction false} TrimEndOf(name: string, sep: string)
    requires |name| > 0 && !IsSpace(name[|name| - 1]) && AllSpace(sep)
    ensures TrimEnd(name + sep) == name
    decreases |sep|
  {
    if |sep| > 0 {
      assert (name + sep)[..|name + sep| - 1] == name + sep[..|sep| - 1];
      TrimEndOf(name, sep[..|sep| - 1]);
    } else {
      assert name + sep == name;
    }
  }

  /** A null or empty string gives an empty name and leaves the number
      alone; so does a string whose last non-space character is not a
      digit, except that the whole string is returned. */
  lemma NoTrailingDigit(s: string, number: int)
    requires |s| > 0 && !IsDigit(s[BackOverSpaces(s, |s| - 1)])
    ensures TrailingNumber(None, number) == ("", number)
    ensures SplitNumber([], number) == ("", number)
    ensures SplitNumber(s, number) == (s, number)
  {
  }

  /** When the digit walk reaches the first character the source parses
      from there and returns an empty name: an all-digit string gives its
      value, and "a12" gives 0. */
  lemma DigitWalkReachesStart(number: int)
    ensures SplitNumber("12", number) == ("", 12)
    ensures SplitNumber("a12", number) == ("", 0)
  {
    assert BackOverSpaces("a12", 2) == 2;
    BackOverDigitsFrom("a12", 0, 2);
    assert SplitNumber("a12", number) == SplitAtRun("a12", 0);
    assert DropSpaces("a12") == "a12";
    assert LeadingDigits("a12") == [];
    assert BackOverSpaces("12", 1) == 1;
    assert BackOverDigits("12", 1) == 0;
    assert SplitNumber("12", number) == SplitAtRun("12", 0);
    assert DropSpaces("12") == "12";
    LeadingDigitsOf("12", []);
    assert "12" + [] == "12";
    assert DecimalValue("12") == 12 by {
      assert "12"[..1] == "1";
    }
  }

  /** The C string is what is split. */
  lemma TrailingNumberOfCString(s: string, number: int)
    requires Stream.NoNul(s)
    ensures TrailingNumber(Some(s), number) == SplitNumber(s, number)
  {
    Stream.CStrNoNul(s);
  }

  // ---------------------------------------------------------------------
  // std::to_string
  // ---------------------------------------------------------------------

  /** The decimal digits of n, most significant first, without leading
      zeros ("0" for zero). */
  function Digits(n: nat): (ds: string)
    ensures AllDigits(ds) && |ds| >= 1 && ds[0] != '-'
  {
    var last := [('0' as int + n % 10) as char];
    if n < 10 then last else Digits(n / 10) + last
  }

  /** `std::to_string` of an int: a minus sign for a negative value, then
      the digits of its magnitude. */
  function ToString(i: int): (s: string)
    ensures |s| >= 1
  {
    if i < 0 then "-" + Digits(-i) else Digits(i)
  }

  lemma {:induction false} DigitsValue(n: nat)
    ensures DecimalValue(Digits(n)) == n
  {
    var ds := Digits(n);
    if n >= 10 {
      DigitsValue(n / 10);
      assert ds[..|ds| - 1] == Digits(n / 10);
    }
  }

  lemma {:induction false} AllDigitsLead(ds: string)
    requires AllDigits(ds)
    ensures LeadingDigits(ds) == ds
  {
    if |ds| > 0 {
      AllDigitsLead(ds[1..]);
      assert ds == [ds[0]] + ds[1..];
    }
  }

  /** `atoi` reads back what `ToString` writes. */
  lemma ToStringAtoi(i: int)
    ensures Atoi(ToString(i)) == i
  {
    var m := if i < 0 then -i else i;
    var ds := Digits(m);
    DigitsValue(m);
    AllDigitsLead(ds);
    assert !IsSpace(ds[0]);
    if i < 0 {
      assert ToString(i)[1..] == ds;
    }
  }

  /** `ToString` never gives two numbers the same text. */
  lemma ToStringInjective(i: int, j: int)
    requires ToString(i) == ToString(j)
    ensures i == j
  {
    ToStringAtoi(i);
    ToStringAtoi(j);
  }

  /** `String::StartsWith`: the length test, then an element-wise
      comparison; it holds exactly when str2 is a prefix of str1. */
  function StartsWith(str1: string, str2: string): (r: bool)
    ensures r <==> exists rest :: str1 == str2 + rest
  {
    PrefixTest(str1, str2);
    |str2| <= |str1| && forall i :: 0 <= i < |str2| ==> str2[i] == str1[i]
  }

  lemma PrefixTest(str1: string, str2: string)
    ensures (|str2| <= |str1| && forall i :: 0 <= i < |str2| ==> str2[i] == str1[i])
      <==> exists rest :: str1 == str2 + rest
  {
    if |str2| <= |str1| && forall i :: 0 <= i < |str2| ==> str2[i] == str1[i] {
      assert str1 == str2 + str1[|str2|..];
    }
    if exists rest :: str1 == str2 + rest {
      var rest :| str1 == str2 + rest;
      assert forall i :: 0 <= i < |str2| ==> str1[i] == (str2 + rest)[i];
    }
  }
}
