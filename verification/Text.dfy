/** Decimal text as written by fmt.Sprintf("%d") and read by the strconv package. */
module Text {

  datatype Option<+T> = None | Some(value: T) {
    function GetOr(default: T): T {
      if Some? then value else default
    }
  }

  const MAX_UINT64: int := 0xFFFF_FFFF_FFFF_FFFF
  const MAX_INT64: int := 0x7FFF_FFFF_FFFF_FFFF

  predicate IsDigit(c: char) {
    '0' <= c <= '9'
  }

  function DigitChar(d: nat): (c: char)
    requires d < 10
    ensures IsDigit(c) && DigitOf(c) == d
  {
    (d + '0' as int) as char
  }

  function DigitOf(c: char): nat
    requires IsDigit(c)
  {
    c as int - '0' as int
  }

  function Decimal(n: nat): (s: string)
    ensures s != "" && forall c | c in s :: IsDigit(c)
  {
    if n < 10 then [DigitChar(n)] else Decimal(n / 10) + [DigitChar(n % 10)]
  }

  function FormatInt(n: int): string {
    if n < 0 then "-" + Decimal(-n) else Decimal(n)
  }

  /** A number together with strconv's verdict; `value` is what is returned even on an error. */
  datatype Parsed = Parsed(value: int, ok: bool)

  /** strconv.ParseUint in base 10: the first offending character decides which error is met. */
  function ScanUint(s: string, n: nat): Parsed {
    if s == "" then Parsed(n, true)
    else if !IsDigit(s[0]) then Parsed(0, false)
    else if n * 10 + DigitOf(s[0]) > MAX_UINT64 then Parsed(MAX_UINT64, false)
    else ScanUint(s[1..], n * 10 + DigitOf(s[0]))
  }

  function ParseUint(s: string): Parsed {
    if s == "" then Parsed(0, false) else ScanUint(s, 0)
  }

  /** strconv.ParseInt in base 10 for 64 bits, and strconv.Atoi: a range error still yields the clamped value. */
  function ParseInt(s: string): Parsed {
    if s == "" then Parsed(0, false)
    else
      var negative := s[0] == '-';
      var u := ParseUint(if s[0] == '-' || s[0] == '+' then s[1..] else s);
      if !u.ok && u.value != MAX_UINT64 then Parsed(0, false)
      else if !negative && u.value > MAX_INT64 then Parsed(MAX_INT64, false)
      else if negative && u.value > MAX_INT64 + 1 then Parsed(-MAX_INT64 - 1, false)
      else Parsed(if negative then -u.value else u.value, true)
  }

  lemma {:induction false} ScanDecimal(n: nat, rest: string)
    requires n <= MAX_UINT64
    ensures ScanUint(Decimal(n) + rest, 0) == ScanUint(rest, n)
  {
    if n < 10 {
      assert (Decimal(n) + rest)[1..] == rest;
    } else {
      var last := [DigitChar(n % 10)] + rest;
      assert Decimal(n) + rest == Decimal(n / 10) + last;
      ScanDecimal(n / 10, last);
      assert last[1..] == rest;
    }
  }

  lemma ParseFormatted(n: int)
    ensures 0 <= n <= MAX_UINT64 ==> ParseUint(Decimal(n)) == Parsed(n, true)
    ensures -MAX_INT64 - 1 <= n <= MAX_INT64 ==> ParseInt(FormatInt(n)) == Parsed(n, true)
  {
    if 0 <= n <= MAX_UINT64 {
      ScanDecimal(n, "");
      assert Decimal(n) + "" == Decimal(n);
    } else if -MAX_INT64 - 1 <= n < 0 {
      ScanDecimal(-n, "");
      assert Decimal(-n) + "" == Decimal(-n);
      assert FormatInt(n)[1..] == Decimal(-n);
    }
  }
}
