/**
 Correlation IDs (src/MQIWorkerThread.cpp:205-266) made from a process ID and the
 name of a thread, its class followed by its number (src/WorkerThread.cpp:56-60).
 */
module CorrelationId {
  import opened Arithmetic

  const HEX_DIGITS := "0123456789abcdef"

  function Quot(n: nat, base: nat): (q: nat)
    requires base > 0
    ensures n >= base >= 2 ==> q < n
    ensures n < base ==> q == 0
  {
    QuotientSmaller(n, base);
    n / base
  }

  function Rem(n: nat, base: nat): (r: nat)
    requires base > 0
    ensures r < base && n == base * Quot(n, base) + r
  {
    n % base
  }

  /** Digits in a base, most significant first, as a number is printed. */
  function Printed(n: nat, base: nat): (s: string)
    requires 2 <= base <= 16
    ensures s != ""
  {
    (if n < base then "" else Printed(Quot(n, base), base)) + [HEX_DIGITS[Rem(n, base)]]
  }

  predicate IsDigit(c: char) { '0' <= c <= '9' }

  function Decimal(n: int): string {
    if n < 0 then "-" + Printed(-n, 10) else Printed(n, 10)
  }

  function Last(s: string, k: nat): (r: string)
    ensures |r| <= k
  {
    if |s| > k then s[|s| - k..] else s
  }

  function Spaces(n: nat): (s: string)
    ensures |s| == n && forall i :: 0 <= i < n ==> s[i] == ' '
  {
    seq(n, i => ' ')
  }

  function PadLeft(s: string, k: nat): (r: string)
    requires |s| <= k
    ensures |r| == k
  {
    Spaces(k - |s|) + s
  }

  function PadRight(s: string, k: nat): (r: string)
    requires |s| <= k
    ensures |r| == k
  {
    s + Spaces(k - |s|)
  }

  /** The process part: the end of the process ID, or a random number in hexadecimal. */
  function Process(procId: string, base: bv32): (s: string)
    ensures |s| <= 8
  {
    if procId == "" then
      HexLength(base as nat, 8);
      Printed(base as nat, 16)
    else Last(procId, 8)
  }

  function CorrelId(procId: string, base: bv32, name: string): (id: string)
    ensures |id| == 24
  {
    PadLeft(Process(procId, base), 8) + "-" + PadRight(Last(name, 15), 15)
  }

  function Power(b: nat, k: nat): nat {
    if k == 0 then 1 else b * Power(b, k - 1)
  }

  lemma PrintedParts(n: nat, base: nat)
    requires 2 <= base <= 16
    ensures var s := Printed(n, base);
      && s[|s| - 1] == HEX_DIGITS[Rem(n, base)]
      && s[..|s| - 1] == if n < base then "" else Printed(Quot(n, base), base)
  {
    hide Quot, Rem;
  }

  lemma {:induction false} PrintedLength(n: nat, base: nat, k: nat)
    requires 2 <= base <= 16 && k >= 1 && n < Power(base, k)
    ensures |Printed(n, base)| <= k
  {
    hide Printed, Quot, Rem, Power;
    PrintedParts(n, base);
    PowerStep(base, k);
    if n >= base {
      QuotBelow(n, base, Power(base, k - 1));
      PowerZero(base);
      PrintedLength(Quot(n, base), base, k - 1);
    }
  }

  lemma PowerStep(b: nat, k: nat)
    requires k > 0
    ensures Power(b, k) == b * Power(b, k - 1)
  {
  }

  lemma PowerZero(b: nat)
    ensures Power(b, 0) == 1 && Power(b, 1) == b
  {
  }

  lemma QuotBelow(n: nat, b: nat, p: nat)
    requires b > 0 && n < b * p
    ensures Quot(n, b) < p
  {
    hide Quot;
    assert b * Quot(n, b) == n - Rem(n, b);
    MulCancel(b, Quot(n, b), p);
  }

  lemma HexLength(n: nat, k: nat)
    requires n < 0x1_0000_0000 && k == 8
    ensures |Printed(n, 16)| <= k
  {
    assert Power(16, 4) == 0x1_0000;
    assert Power(16, 8) == 16 * (16 * (16 * (16 * Power(16, 4))));
    PrintedLength(n, 16, 8);
  }

  lemma DecimalLength(n: nat)
    requires n <= 0x8000_0000
    ensures |Printed(n, 10)| <= 10
  {
    assert Power(10, 5) == 100_000;
    assert Power(10, 10) == 10 * (10 * (10 * (10 * (10 * Power(10, 5)))));
    PrintedLength(n, 10, 10);
  }

  /** Distinct numbers are printed differently. */
  lemma {:induction false} PrintedInjective(n: nat, m: nat, base: nat)
    requires 2 <= base <= 16 && Printed(n, base) == Printed(m, base)
    ensures n == m
  {
    hide Printed, Quot, Rem;
    PrintedParts(n, base);
    PrintedParts(m, base);
    HexDigitsDiffer(Rem(n, base), Rem(m, base));
    assert n < base <==> m < base;
    if n >= base {
      PrintedInjective(Quot(n, base), Quot(m, base), base);
    }
    assert Quot(n, base) == Quot(m, base);
  }

  lemma HexDigitsDiffer(i: nat, j: nat)
    requires i < 16 && j < 16 && HEX_DIGITS[i] == HEX_DIGITS[j]
    ensures i == j
  {
  }

  function DigitValue(c: char): nat {
    if '0' <= c <= '9' then (c - '0') as nat else if 'a' <= c <= 'f' then 10 + (c - 'a') as nat else 16
  }

  /** The number that digits stand for, most significant first. */
  function Value(s: string, base: nat): nat {
    if s == "" then 0 else base * Value(s[..|s| - 1], base) + DigitValue(s[|s| - 1])
  }

  lemma DigitsHaveValues(d: nat)
    requires d < 16
    ensures DigitValue(HEX_DIGITS[d]) == d && (HEX_DIGITS[d] == '0' <==> d == 0)
  {
  }

  /** What is printed are digits of the base, in lower case, that stand for the number, with no leading zero. */
  lemma {:induction false} PrintedValue(n: nat, base: nat)
    requires 2 <= base <= 16
    ensures var s := Printed(n, base);
      && Value(s, base) == n && (s[0] == '0' <==> n == 0)
      && forall i :: 0 <= i < |s| ==> DigitValue(s[i]) < base
  {
    hide Printed, Quot, Rem, DigitValue;
    PrintedParts(n, base);
    DigitsHaveValues(Rem(n, base));
    var s := Printed(n, base);
    if n < base {
      assert Value(s[..|s| - 1], base) == 0;
    } else {
      PrintedValue(Quot(n, base), base);
      assert s[0] == s[..|s| - 1][0];
      QuotPositive(n, base);
    }
  }

  lemma QuotPositive(n: nat, base: nat)
    requires n >= base >= 2
    ensures Quot(n, base) > 0
  {
    assert n == base * Quot(n, base) + Rem(n, base);
  }

  /**
   The 24 characters of an ID: up to eight of the process part against the hyphen, and up
   to fifteen of the name behind it, the last ones of each, with blanks around them.
   */
  lemma IdFormat(procId: string, base: bv32, name: string)
    ensures var id := CorrelId(procId, base, name);
      var p := if procId == "" then Printed(base as nat, 16)
               else if |procId| > 8 then procId[|procId| - 8..] else procId;
      var q := if |name| > 15 then name[|name| - 15..] else name;
      && |p| <= 8 && id[8 - |p|..8] == p && id[8] == '-' && id[9..9 + |q|] == q
      && (forall i :: 0 <= i < 8 - |p| ==> id[i] == ' ') && (forall i :: 9 + |q| <= i < 24 ==> id[i] == ' ')
  {
    hide Printed, PadLeft, PadRight;
    if procId == "" {
      HexLength(base as nat, 8);
    }
    PadsFormat(Process(procId, base), Last(name, 15));
  }

  lemma PadsFormat(p: string, q: string)
    requires |p| <= 8 && |q| <= 15
    ensures var id := PadLeft(p, 8) + "-" + PadRight(q, 15);
      && id[8 - |p|..8] == p && id[8] == '-' && id[9..9 + |q|] == q
      && (forall i :: 0 <= i < 8 - |p| ==> id[i] == ' ') && (forall i :: 9 + |q| <= i < 24 ==> id[i] == ' ')
  {
    var id, x, y := PadLeft(p, 8) + "-" + PadRight(q, 15), Spaces(8 - |p|), Spaces(15 - |q|);
    assert id[..8] == x + p && id[9..] == q + y;
    assert id[8 - |p|..8] == id[..8][8 - |p|..];
    assert id[9..9 + |q|] == id[9..][..|q|];
    forall i | 9 + |q| <= i < 24 ensures id[i] == ' ' {
      assert id[i] == id[9..][i - 9];
    }
  }

  // ----- the ID in the buffer

  /** memset, format and copy into the 24 bytes of the ID. */
  method GenerateCorrelID(id: array<char>, procId: string, base: bv32, name: string)
    requires id.Length == 24
    modifies id
    ensures id[..] == CorrelId(procId, base, name)
  {
    for i := 0 to 24 {
      id[i] := '\0';
    }
    var processPart := procId;
    if |procId| == 0 {
      processPart := Printed(base as nat, 16);
      HexLength(base as nat, 8);
    } else if |procId| > 8 {
      processPart := procId[|procId| - 8..];
    }
    var threadPart := name;
    if |name| > 15 {
      threadPart := name[|name| - 15..];
    }
    var formatted := PadLeft(processPart, 8) + "-" + PadRight(threadPart, 15);
    for i := 0 to 24
      invariant forall j :: 0 <= j < i ==> id[j] == formatted[j]
    {
      id[i] := formatted[i];
    }
    assert formatted == CorrelId(procId, base, name);
  }

  // ----- what an ID tells apart

  predicate NoSpaces(s: string) { ' ' !in s }

  function FirstSpace(s: string): nat { if s == "" || s[0] == ' ' then 0 else 1 + FirstSpace(s[1..]) }

  function LeadingSpaces(s: string): nat { if s == "" || s[0] != ' ' then 0 else 1 + LeadingSpaces(s[1..]) }

  lemma {:induction false} FirstSpaceAfter(s: string, n: nat)
    requires NoSpaces(s)
    ensures FirstSpace(s + Spaces(n)) == |s|
  {
    if s != "" {
      FirstSpaceAfter(s[1..], n);
      assert (s + Spaces(n))[1..] == s[1..] + Spaces(n);
    }
  }

  lemma {:induction false} LeadingSpacesBefore(n: nat, s: string)
    requires NoSpaces(s)
    ensures LeadingSpaces(Spaces(n) + s) == n
  {
    if n == 0 {
      assert Spaces(0) + s == s;
    } else {
      LeadingSpacesBefore(n - 1, s);
      assert (Spaces(n) + s)[1..] == Spaces(n - 1) + s;
    }
  }

  lemma PadRightInjective(s: string, t: string, k: nat)
    requires |s| <= k && |t| <= k && NoSpaces(s) && NoSpaces(t) && PadRight(s, k) == PadRight(t, k)
    ensures s == t
  {
    FirstSpaceAfter(s, k - |s|);
    FirstSpaceAfter(t, k - |t|);
    assert PadRight(s, k)[..|s|] == s && PadRight(t, k)[..|t|] == t;
  }

  lemma PadLeftInjective(s: string, t: string, k: nat)
    requires |s| <= k && |t| <= k && NoSpaces(s) && NoSpaces(t) && PadLeft(s, k) == PadLeft(t, k)
    ensures s == t
  {
    LeadingSpacesBefore(k - |s|, s);
    LeadingSpacesBefore(k - |t|, t);
    assert PadLeft(s, k)[k - |s|..] == s && PadLeft(t, k)[k - |t|..] == t;
  }

  /** Equal IDs agree part by part. */
  lemma SameParts(procId: string, base: bv32, name: string, procId': string, base': bv32, name': string)
    requires CorrelId(procId, base, name) == CorrelId(procId', base', name')
    ensures PadLeft(Process(procId, base), 8) == PadLeft(Process(procId', base'), 8)
    ensures PadRight(Last(name, 15), 15) == PadRight(Last(name', 15), 15)
  {
    var id, id' := CorrelId(procId, base, name), CorrelId(procId', base', name');
    assert id[..8] == PadLeft(Process(procId, base), 8) && id[9..] == PadRight(Last(name, 15), 15);
    assert id'[..8] == PadLeft(Process(procId', base'), 8) && id'[9..] == PadRight(Last(name', 15), 15);
  }

  /** Whatever the threads are called, processes whose IDs end differently never share a correlation ID. */
  lemma ProcessesDiffer(procId: string, base: bv32, name: string, procId': string, base': bv32, name': string)
    requires procId != "" && procId' != "" && NoSpaces(procId) && NoSpaces(procId')
    requires Last(procId, 8) != Last(procId', 8)
    ensures CorrelId(procId, base, name) != CorrelId(procId', base', name')
  {
    if CorrelId(procId, base, name) == CorrelId(procId', base', name') {
      SameParts(procId, base, name, procId', base', name');
      PadLeftInjective(Last(procId, 8), Last(procId', 8), 8);
    }
  }

  predicate AllDigits(s: string) { forall i :: 0 <= i < |s| ==> IsDigit(s[i]) }

  lemma {:induction false} PrintedDigits(n: nat)
    ensures AllDigits(Printed(n, 10))
  {
    PrintedParts(n, 10);
    hide Printed, Quot, Rem;
    if n >= 10 {
      PrintedDigits(Quot(n, 10));
    }
    OneDigit(Rem(n, 10));
    var s := Printed(n, 10);
    assert s == s[..|s| - 1] + [s[|s| - 1]];
    hide IsDigit;
  }

  lemma OneDigit(d: nat)
    requires d < 10
    ensures IsDigit(HEX_DIGITS[d])
  {
  }

  /** Thread numbers are printed as 32-bit integers. */
  predicate ThreadNumber(n: int) { -0x8000_0000 <= n < 0x8000_0000 }

  lemma DecimalForm(n: int)
    requires ThreadNumber(n)
    ensures var s := Decimal(n);
      && 1 <= |s| <= 11 && NoSpaces(s)
      && (if n >= 0 then AllDigits(s) && |s| <= 10 else s[0] == '-' && AllDigits(s[1..]))
  {
    DecimalLength(if n < 0 then -n else n);
    PrintedDigits(if n < 0 then -n else n);
    hide Printed;
  }

  lemma DecimalSign(n: int)
    requires ThreadNumber(n)
    ensures Decimal(n) != "" && (Decimal(n)[0] == '-' <==> n < 0)
    ensures n >= 0 ==> Decimal(n) == Printed(n, 10)
    ensures n < 0 ==> Decimal(n)[1..] == Printed(-n, 10)
  {
    DecimalForm(n);
    hide Printed, NoSpaces;
  }

  lemma DecimalInjective(n: int, m: int)
    requires ThreadNumber(n) && ThreadNumber(m) && Decimal(n) == Decimal(m)
    ensures n == m
  {
    hide Printed, Decimal;
    DecimalSign(n);
    DecimalSign(m);
    if n >= 0 {
      PrintedInjective(n, m, 10);
    } else {
      PrintedInjective(-n, -m, 10);
    }
  }

  /**
   A number s is hidden behind a longer number t: t is s after the end of the class
   name, and what is kept of the class name repeats with the difference in length.
   */
  ghost predicate Hidden(className: string, s: string, t: string)
    requires |s| < 15
  {
    var shift := |t| - |s|;
    && 0 < shift && 15 - |s| <= |className| && shift <= |className|
    && t == className[|className| - shift..] + s
    && forall i :: |className| - (15 - |s|) <= i < |className| - shift ==> className[i] == className[i + shift]
  }

  /** What is kept of a name is the same for two numbers of different lengths exactly if one is hidden. */
  lemma KeptSameIffHidden(className: string, s: string, t: string)
    requires |s| < |t| <= 15
    ensures Last(className + s, 15) == Last(className + t, 15) <==> Hidden(className, s, t)
  {
    var c, shift := className, |t| - |s|;
    var a, b := Last(c + s, 15), Last(c + t, 15);
    if 15 - |s| <= |c| {
      var from := |c| - (15 - |s|);
      assert a == (c + s)[from..] && b == (c + t)[from + shift..];
      KeptSameMeansHidden(c, s, t, from);
      HiddenMeansKeptSame(c, s, t, from);
    }
  }

  lemma KeptSameMeansHidden(c: string, s: string, t: string, from: nat)
    requires |s| < |t| <= 15 && from == |c| - (15 - |s|)
    ensures (c + s)[from..] == (c + t)[from + (|t| - |s|)..] ==> Hidden(c, s, t)
  {
    var shift := |t| - |s|;
    var a, b := (c + s)[from..], (c + t)[from + shift..];
    if a == b {
      forall i | from <= i < |c| - shift ensures c[i] == c[i + shift] {
        assert a[i - from] == c[i] && b[i - from] == c[i + shift];
      }
      var e := c[|c| - shift..] + s;
      forall q | 0 <= q < |t| ensures t[q] == e[q] {
        assert a[15 - |t| + q] == e[q] && b[15 - |t| + q] == t[q];
      }
      assert t == e;
    }
  }

  lemma HiddenMeansKeptSame(c: string, s: string, t: string, from: nat)
    requires |s| < |t| <= 15 && from == |c| - (15 - |s|)
    ensures Hidden(c, s, t) ==> (c + s)[from..] == (c + t)[from + (|t| - |s|)..]
  {
    var shift := |t| - |s|;
    var a, b := (c + s)[from..], (c + t)[from + shift..];
    if Hidden(c, s, t) {
      var e := c[|c| - shift..] + s;
      forall j | 0 <= j < 15 ensures a[j] == b[j] {
        if j < 15 - |t| {
          assert c[from + j] == c[from + j + shift];
        } else {
          assert t[j - (15 - |t|)] == e[j - (15 - |t|)];
        }
      }
      assert a == b;
    }
  }

  lemma KeptSameLength(className: string, s: string, t: string)
    requires |s| == |t| <= 15 && Last(className + s, 15) == Last(className + t, 15)
    ensures s == t
  {
    var a, b := Last(className + s, 15), Last(className + t, 15);
    assert a[|a| - |s|..] == s && b[|b| - |t|..] == t;
  }

  lemma NamesNoSpaces(className: string, n: int)
    requires NoSpaces(className) && ThreadNumber(n)
    ensures NoSpaces(Last(className + Decimal(n), 15))
  {
    DecimalForm(n);
    hide Decimal;
  }

  /**
   Threads of one class share a correlation ID exactly if their numbers are the same
   or one is hidden behind the other.
   */
  lemma SameIdIffHidden(procId: string, base: bv32, className: string, n: int, m: int)
    requires NoSpaces(className) && ThreadNumber(n) && ThreadNumber(m)
    ensures |Decimal(n)| < 15 && |Decimal(m)| < 15
    ensures CorrelId(procId, base, className + Decimal(n)) == CorrelId(procId, base, className + Decimal(m))
      <==> n == m || Hidden(className, Decimal(n), Decimal(m)) || Hidden(className, Decimal(m), Decimal(n))
  {
    DecimalForm(n);
    DecimalForm(m);
    SameIdIffKeptSame(procId, base, className, n, m);
    var s, t := Decimal(n), Decimal(m);
    if |s| < |t| {
      KeptSameIffHidden(className, s, t);
    } else if |t| < |s| {
      KeptSameIffHidden(className, t, s);
    } else if Last(className + s, 15) == Last(className + t, 15) {
      hide Last, Decimal, Hidden;
      KeptSameLength(className, s, t);
      DecimalInjective(n, m);
    }
  }

  lemma SameIdIffKeptSame(procId: string, base: bv32, className: string, n: int, m: int)
    requires NoSpaces(className) && ThreadNumber(n) && ThreadNumber(m)
    ensures CorrelId(procId, base, className + Decimal(n)) == CorrelId(procId, base, className + Decimal(m))
      <==> Last(className + Decimal(n), 15) == Last(className + Decimal(m), 15)
  {
    var a, b := className + Decimal(n), className + Decimal(m);
    if CorrelId(procId, base, a) == CorrelId(procId, base, b) {
      SameParts(procId, base, a, procId, base, b);
      NamesNoSpaces(className, n);
      NamesNoSpaces(className, m);
      hide CorrelId, Last, Decimal;
      PadRightInjective(Last(a, 15), Last(b, 15), 15);
    }
  }

  /** A class name, with a character that is not a digit among its last six. */
  predicate TellsApart(className: string) {
    && (forall i :: 0 <= i < |className| ==> className[i] != '-' && className[i] != ' ')
    && exists i :: |className| - 6 <= i < |className| && 0 <= i && !IsDigit(className[i])
  }

  /** The end of a class name that hides a number is made of digits. */
  lemma {:induction false} HiddenBehindDigits(className: string, s: string, t: string, i: nat)
    requires |s| < 15 && Hidden(className, s, t) && AllDigits(t)
    requires |className| - (15 - |s|) <= i < |className|
    ensures IsDigit(className[i])
    decreases |className| - i
  {
    var shift := |t| - |s|;
    if i < |className| - shift {
      HiddenBehindDigits(className, s, t, i + shift);
    } else {
      assert t[i - (|className| - shift)] == className[i];
    }
  }

  lemma NotHidden(className: string, n: int, m: int)
    requires TellsApart(className) && ThreadNumber(n) && ThreadNumber(m) && |Decimal(n)| < 15
    ensures !Hidden(className, Decimal(n), Decimal(m))
  {
    DecimalForm(n);
    DecimalForm(m);
    hide Decimal;
    var s, t := Decimal(n), Decimal(m);
    if Hidden(className, s, t) {
      var shift := |t| - |s|;
      assert t[0] == className[|className| - shift];
      forall i | |className| - 6 <= i < |className| && 0 <= i ensures IsDigit(className[i]) {
        HiddenBehindDigits(className, s, t, i);
      }
    }
  }

  /** Within such a class, threads with different numbers have different correlation IDs. */
  lemma ThreadsDiffer(procId: string, base: bv32, className: string, n: int, m: int)
    requires TellsApart(className) && ThreadNumber(n) && ThreadNumber(m)
    ensures n != m ==> CorrelId(procId, base, className + Decimal(n)) != CorrelId(procId, base, className + Decimal(m))
  {
    SameIdIffHidden(procId, base, className, n, m);
    NotHidden(className, n, m);
    NotHidden(className, m, n);
  }
}
