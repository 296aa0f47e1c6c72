/** The four-digit length header: `sprintf("%04d")` on one side and `atoi` on the other. */
module Decimal {

  const MAX_HEADER := 9999

  function Digit(d: nat): (c: char)
    requires d < 10
    ensures '0' <= c <= '9' && c as int - '0' as int == d
  {
    '0' + d as char
  }

  predicate IsDigit(c: char) {
    '0' <= c <= '9'
  }

  /** Decimal digits, most significant first, at least one. */
  function Digits(n: nat): (s: string)
    ensures s != [] && forall i :: 0 <= i < |s| ==> IsDigit(s[i])
  {
    if n < 10 then [Digit(n)] else Digits(n / 10) + [Digit(n % 10)]
  }

  function Zeros(k: nat): (s: string)
    ensures |s| == k && forall i :: 0 <= i < k ==> s[i] == '0'
  {
    seq(k, _ => '0')
  }

  /** What "%04d" prints for a length. */
  function Header(n: nat): (s: string)
    ensures forall i :: 0 <= i < |s| ==> IsDigit(s[i])
  {
    var d := Digits(n);
    if |d| < 4 then Zeros(4 - |d|) + d else d
  }

  predicate IsSpace(c: char) {
    c == ' ' || '\t' <= c <= '\r'
  }

  /** The value of the digits a string starts with, continuing from acc. */
  function LeadingValue(s: string, acc: nat): nat {
    if s == [] || !IsDigit(s[0]) then acc
    else LeadingValue(s[1..], 10 * acc + (s[0] as int - '0' as int))
  }

  /** atoi: white space, at most one sign, then the leading digits. */
  function Atoi(s: string): int {
    if s == [] then 0
    else if IsSpace(s[0]) then Atoi(s[1..])
    else if s[0] == '-' then 0 - LeadingValue(s[1..], 0) as int
    else if s[0] == '+' then LeadingValue(s[1..], 0)
    else LeadingValue(s, 0)
  }

  lemma {:induction false} LeadingValueSplit(s: string, t: string, acc: nat)
    requires forall i :: 0 <= i < |s| ==> IsDigit(s[i])
    ensures LeadingValue(s + t, acc) == LeadingValue(t, LeadingValue(s, acc))
  {
    if s == [] {
      assert s + t == t;
    } else {
      assert (s + t)[1..] == s[1..] + t;
      LeadingValueSplit(s[1..], t, 10 * acc + (s[0] as int - '0' as int));
    }
  }

  lemma {:induction false} DigitsValue(n: nat)
    ensures LeadingValue(Digits(n), 0) == n
  {
    if n >= 10 {
      DigitsValue(n / 10);
      LeadingValueSplit(Digits(n / 10), [Digit(n % 10)], 0);
      assert LeadingValue([Digit(n % 10)], n / 10) == LeadingValue([], 10 * (n / 10) + n % 10);
    } else {
      assert LeadingValue([Digit(n)], 0) == LeadingValue([], n);
    }
  }

  lemma {:induction false} ZerosValue(k: nat, t: string)
    ensures LeadingValue(Zeros(k) + t, 0) == LeadingValue(t, 0)
  {
    if k == 0 {
      assert Zeros(0) + t == t;
    } else {
      assert (Zeros(k) + t)[1..] == Zeros(k - 1) + t;
      ZerosValue(k - 1, t);
    }
  }

  lemma HeaderValue(n: nat)
    ensures LeadingValue(Header(n), 0) == n
    ensures Atoi(Header(n)) == n
  {
    DigitsValue(n);
    if |Digits(n)| < 4 {
      ZerosValue(4 - |Digits(n)|, Digits(n));
    }
    assert IsDigit(Header(n)[0]);
  }

  lemma DigitsLength(n: nat)
    ensures |Digits(n)| <= 4 <==> n <= MAX_HEADER
  {
    var a, b, c := n / 10, n / 10 / 10, n / 10 / 10 / 10;
    assert |Digits(n)| == if n < 10 then 1 else 1 + |Digits(a)|;
    assert |Digits(a)| == if a < 10 then 1 else 1 + |Digits(b)|;
    assert |Digits(b)| == if b < 10 then 1 else 1 + |Digits(c)|;
    assert |Digits(c)| == 1 <==> c < 10;
  }

  /** The header fills its four characters exactly, and reads back as the length, for the lengths
      up to 9999 and no others. */
  lemma HeaderFitsIff(n: nat)
    ensures |Header(n)| == 4 <==> n <= MAX_HEADER
    ensures |Header(n)| >= 4
    ensures Atoi(Header(n)[..4]) == n <==> n <= MAX_HEADER
  {
    DigitsLength(n);
    HeaderValue(n);
    var h := Header(n);
    if n <= MAX_HEADER {
      assert h[..4] == h;
    } else {
      assert h == Digits(n);
      assert h[..|h| - 1] == Digits(n / 10);
      PrefixValue(Digits(n / 10), 4);
      DigitsValue(n / 10);
      assert h[..4] == Digits(n / 10)[..4];
      assert IsDigit(h[0]);
    }
  }

  /** Cutting digits off the end never makes the value larger. */
  lemma {:induction false} PrefixValue(s: string, k: nat)
    requires k <= |s| && forall i :: 0 <= i < |s| ==> IsDigit(s[i])
    ensures LeadingValue(s[..k], 0) <= LeadingValue(s, 0)
  {
    assert s == s[..k] + s[k..];
    LeadingValueSplit(s[..k], s[k..], 0);
    ValueGrows(s[k..], LeadingValue(s[..k], 0));
  }

  lemma {:induction false} ValueGrows(s: string, acc: nat)
    ensures acc <= LeadingValue(s, acc)
    decreases |s|
  {
    if s != [] && IsDigit(s[0]) {
      ValueGrows(s[1..], 10 * acc + (s[0] as int - '0' as int));
    }
  }

  lemma ValueShifts(s: string, acc: nat)
    requires s != [] && IsDigit(s[0])
    ensures 10 * acc <= LeadingValue(s, acc)
  {
    ValueGrows(s[1..], 10 * acc + (s[0] as int - '0' as int));
  }

  /** An incomplete header reads as a smaller length, except for a length of zero. */
  lemma ShortHeaderReadsLess(n: nat, h: nat)
    requires n <= MAX_HEADER && h < 4
    ensures |Header(n)| == 4
    ensures Atoi(Header(n)[..h]) == n <==> n == 0
    ensures 0 <= Atoi(Header(n)[..h]) <= n
  {
    HeaderFitsIff(n);
    HeaderValue(n);
    var s := Header(n);
    assert s == s[..h] + s[h..];
    LeadingValueSplit(s[..h], s[h..], 0);
    ValueShifts(s[h..], LeadingValue(s[..h], 0));
    if h > 0 {
      assert IsDigit(s[..h][0]);
    }
  }
}
