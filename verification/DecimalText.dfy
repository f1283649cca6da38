/** Base-ten text as `strconv` and `fmt` write and read it: `AppendInt`, `%020d`, `ParseInt`, `ParseUint`. */
module DecimalText {

  datatype Option<+T> = None | Some(value: T)

  predicate IsDigit(c: char) { '0' <= c <= '9' }

  predicate AllDigits(s: string) { forall i :: 0 <= i < |s| ==> IsDigit(s[i]) }

  function DigitChar(d: nat): (c: char)
    requires d < 10
    ensures IsDigit(c) && c as int - '0' as int == d
  {
    ('0' as int + d) as char
  }

  /** The digits of a natural number, without leading zeros. */
  function Digits(n: nat): (s: string)
    ensures s != [] && AllDigits(s)
    ensures Value(s) == n
  {
    if n < 10 then
      assert [DigitChar(n)][..0] == [];
      [DigitChar(n)]
    else
      var front, last := Digits(n / 10), DigitChar(n % 10);
      assert (front + [last])[..|front|] == front;
      front + [last]
  }

  /** The number a digit string denotes. */
  function Value(s: string): nat
    requires AllDigits(s)
  {
    if s == [] then 0 else Value(s[..|s| - 1]) * 10 + (s[|s| - 1] as int - '0' as int)
  }

  function Zeros(n: nat): (s: string)
    ensures |s| == n && AllDigits(s)
  {
    seq(n, _ => '0')
  }

  /** `%0<width>d` for a natural number. */
  function Padded(n: nat, width: nat): (s: string)
    ensures s != [] && AllDigits(s)
  {
    var d := Digits(n);
    if |d| >= width then d else Zeros(width - |d|) + d
  }

  lemma {:induction false} LeadingZeros(k: nat, s: string)
    requires AllDigits(s)
    ensures Value(Zeros(k) + s) == Value(s)
    decreases k + |s|
  {
    var z := Zeros(k) + s;
    if s != [] {
      assert z[..|z| - 1] == Zeros(k) + s[..|s| - 1];
      LeadingZeros(k, s[..|s| - 1]);
    } else if k > 0 {
      assert z[..|z| - 1] == Zeros(k - 1) + s;
      LeadingZeros(k - 1, s);
    }
  }

  /** Padding does not change the number written. */
  lemma PaddedValue(n: nat, width: nat)
    ensures Value(Padded(n, width)) == n
  {
    if |Digits(n)| < width { LeadingZeros(width - |Digits(n)|, Digits(n)); }
  }

  /** `strconv.AppendInt(_, n, 10)`. */
  function Itoa(n: int): (s: string)
    ensures s != []
    ensures forall c :: c in s ==> IsDigit(c) || c == '-'
  {
    if n < 0 then "-" + Digits(-n) else Digits(n)
  }

  /** `strconv.ParseUint` without its range check. */
  function ParseNat(s: string): Option<nat> {
    if s != [] && AllDigits(s) then Some(Value(s)) else None
  }

  /** `strconv.ParseInt` without its range check: an optional sign, then digits. */
  function ParseSigned(s: string): Option<int> {
    if s != [] && s[0] == '-' then
      match ParseNat(s[1..]) case Some(n) => Some(0 - n as int) case None => None
    else if s != [] && s[0] == '+' then
      match ParseNat(s[1..]) case Some(n) => Some(n) case None => None
    else
      match ParseNat(s) case Some(n) => Some(n) case None => None
  }

  /** Reading back what was written gives the number written. */
  lemma ItoaRoundTrip(n: int)
    ensures ParseSigned(Itoa(n)) == Some(n)
  {
    if n < 0 { assert Itoa(n)[1..] == Digits(-n); }
  }

  // ---- Cutting a string at a separator ----

  function IndexOf(s: string, c: char): (i: nat)
    ensures i <= |s|
    ensures forall k :: 0 <= k < i ==> s[k] != c
    ensures i < |s| ==> s[i] == c
  {
    if s == [] || s[0] == c then 0 else 1 + IndexOf(s[1..], c)
  }

  function LastIndexOf(s: string, c: char): (i: int)
    ensures -1 <= i < |s|
    ensures i >= 0 ==> s[i] == c
    ensures forall k :: i < k < |s| ==> s[k] != c
  {
    if s == [] then -1
    else if s[|s| - 1] == c then |s| - 1
    else LastIndexOf(s[..|s| - 1], c)
  }

  /** The first separator of `a + [c] + b` is the one after `a` when `a` has none. */
  lemma {:induction false} FirstCut(a: string, c: char, b: string)
    requires c !in a
    ensures IndexOf(a + [c] + b, c) == |a|
  {
    if a != [] {
      assert (a + [c] + b)[1..] == a[1..] + [c] + b;
      FirstCut(a[1..], c, b);
    }
  }

  /** The last separator of `a + [c] + b` is the one before `b` when `b` has none. */
  lemma {:induction false} LastCut(a: string, c: char, b: string)
    requires c !in b
    ensures LastIndexOf(a + [c] + b, c) == |a|
  {
    if b != [] {
      assert (a + [c] + b)[..|a| + |b|] == a + [c] + b[..|b| - 1];
      LastCut(a, c, b[..|b| - 1]);
    }
  }
}
