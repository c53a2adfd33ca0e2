/** What a text means as a number or a flag, read off its digits, and what the scalar binders make of it. */
module NumberText {
  import opened Text
  import opened BinderTypes

  // ---------- digits ----------

  predicate AllDigits(s: string) {
    forall i :: 0 <= i < |s| ==> IsDigit(s[i])
  }

  /** By place value, the last digit counting once. */
  function ValueOf(s: string): nat
    requires AllDigits(s)
  {
    if s == "" then 0 else 10 * ValueOf(s[..|s| - 1]) + (s[|s| - 1] as int - '0' as int)
  }

  /** The number a text stands for: digits, behind a sign if there may be one. */
  function NumberIn(s: string, signed: bool): Option<int> {
    var sign := signed && s != "" && (s[0] == '-' || s[0] == '+');
    var digits := if sign then s[1..] else s;
    if digits == "" || !AllDigits(digits) then None
    else
      var n: int := ValueOf(digits);
      Some(if sign && s[0] == '-' then -n else n)
  }

  lemma ValueOfOneMore(read: string, c: char)
    requires AllDigits(read) && IsDigit(c)
    ensures AllDigits(read + [c]) && ValueOf(read + [c]) == 10 * ValueOf(read) + DigitOf(c)
  {
    assert (read + [c])[..|read|] == read;
  }

  lemma {:induction false} ValueGrows(read: string, rest: string)
    requires AllDigits(read) && AllDigits(rest)
    ensures AllDigits(read + rest) && ValueOf(read) <= ValueOf(read + rest)
    decreases |rest|
  {
    if rest == "" {
      assert read + rest == read;
    } else {
      ValueOfOneMore(read, rest[0]);
      assert read + rest == (read + [rest[0]]) + rest[1..];
      ValueGrows(read + [rest[0]], rest[1..]);
    }
  }

  /** Reading on from a value yields the value of the whole text, if that is all digits and fits 64 bits. */
  lemma {:induction false} ScanReadsValue(read: string, rest: string)
    requires AllDigits(read) && ValueOf(read) <= MAX_UINT64
    ensures var p := ScanUint(rest, ValueOf(read));
      && (p.ok <==> AllDigits(rest) && AllDigits(read + rest) && ValueOf(read + rest) <= MAX_UINT64)
      && (p.ok ==> p.value == ValueOf(read + rest))
      && (!p.ok && AllDigits(rest) ==> p.value == MAX_UINT64)
      && (!p.ok ==> p.value == 0 || p.value == MAX_UINT64)
    decreases |rest|
  {
    if rest == "" {
      assert read + rest == read;
    } else if IsDigit(rest[0]) {
      ValueOfOneMore(read, rest[0]);
      var more := read + [rest[0]];
      assert read + rest == more + rest[1..];
      assert AllDigits(rest) <==> AllDigits(rest[1..]);
      if ValueOf(more) <= MAX_UINT64 {
        ScanReadsValue(more, rest[1..]);
      } else if AllDigits(rest[1..]) {
        ValueGrows(more, rest[1..]);
      }
    }
  }

  lemma UintReadsNumber(s: string)
    ensures var n := NumberIn(s, false); var p := ParseUint(s);
      && (p.ok <==> n.Some? && n.value < 0x1_0000_0000_0000_0000)
      && (p.ok ==> p.value == n.value)
      && (!p.ok ==> p.value == 0 || p.value == MAX_UINT64)
      && (!p.ok && n.Some? ==> p.value == MAX_UINT64)
  {
    ScanReadsValue("", s);
    assert "" + s == s;
  }

  /** strconv.ParseInt accepts exactly the numbers of 64 bits, and returns the nearest one for a number beyond. */
  lemma IntReadsNumber(s: string)
    ensures var n := NumberIn(s, true); var p := ParseInt(s);
      && (p.ok <==> n.Some? && -0x8000_0000_0000_0000 <= n.value < 0x8000_0000_0000_0000)
      && (p.ok ==> p.value == n.value)
      && (n.Some? && n.value >= 0x8000_0000_0000_0000 ==> p.value == 0x7FFF_FFFF_FFFF_FFFF)
      && (n.Some? && n.value < -0x8000_0000_0000_0000 ==> p.value == -0x8000_0000_0000_0000)
      && (s == "" || !(IsDigit(s[0]) || s[0] in "+-") ==> p.value == 0)
  {
    if s != "" {
      UintReadsNumber(if s[0] == '-' || s[0] == '+' then s[1..] else s);
    }
  }

  // ---------- printed numbers ----------

  /** The digits of a number, without leading zeros. */
  lemma {:induction false} PrintedDigits(n: nat)
    ensures AllDigits(Decimal(n)) && ValueOf(Decimal(n)) == n
    ensures Decimal(n) != "" && (Decimal(n)[0] == '0' ==> n == 0 && Decimal(n) == "0")
  {
    assert forall i :: 0 <= i < |Decimal(n)| ==> Decimal(n)[i] in Decimal(n);
    if n < 10 {
      assert Decimal(n)[..0] == "";
    } else {
      PrintedDigits(n / 10);
      ValueOfOneMore(Decimal(n / 10), DigitChar(n % 10));
    }
  }

  /** What is printed: the number with a minus sign only if it is negative, true or false, or the string itself. */
  lemma PrintedAtom(a: Atom)
    ensures a.Int? ==> NumberIn(AtomText(a), a.n < 0) == Some(a.n)
    ensures a.Uint? && a.u >= 0 ==> NumberIn(AtomText(a), false) == Some(a.u)
    ensures a.Int? || a.Uint? ==> var s := AtomText(a); |s| >= 1 && (s[0] == '0' ==> s == "0") && s[0] != '+'
    ensures a.Bool? ==> AtomText(a) == if a.b then "true" else "false"
    ensures a.Str? ==> AtomText(a) == a.s
  {
    if a.Int? || a.Uint? {
      var n := if a.Int? then a.n else a.u;
      PrintedDigits(if n < 0 then -n else n);
      if n < 0 {
        assert AtomText(a)[1..] == Decimal(-n);
      }
    }
  }

  // ---------- numbers of every width ----------

  /** Bits of an int or uint type. */
  function Bits(w: Width): nat {
    match w
    case W8 => 8
    case W16 => 16
    case W32 => 32
    case W64 => 64
  }

  function Power(n: nat): int {
    if n == 0 then 1 else 2 * Power(n - 1)
  }

  lemma PowerOfWidth(w: Width)
    ensures Modulus(w) == Power(Bits(w)) && Modulus(w) / 2 == Power(Bits(w) - 1)
  {
    assert Power(8) == 0x100 && Power(7) == 0x80;
    assert Power(16) == 0x100 * Power(8) by { PowerSplits(8, 8); }
    assert Power(15) == 0x100 * Power(7) by { PowerSplits(8, 7); }
    assert Power(32) == 0x1_0000 * Power(16) by { PowerSplits(16, 16); }
    assert Power(31) == 0x1_0000 * Power(15) by { PowerSplits(16, 15); }
    assert Power(64) == 0x1_0000_0000 * Power(32) by { PowerSplits(32, 32); }
    assert Power(63) == 0x1_0000_0000 * Power(31) by { PowerSplits(32, 31); }
  }

  lemma {:induction false} PowerSplits(a: nat, b: nat)
    ensures Power(a + b) == Power(a) * Power(b)
    decreases a
  {
    if a > 0 {
      PowerSplits(a - 1, b);
      assert Power(a + b) == 2 * Power(a - 1 + b);
      assert 2 * (Power(a - 1) * Power(b)) == (2 * Power(a - 1)) * Power(b);
    }
  }

  /** k is n cut down to the low bits: the two differ by a multiple of 2^bits. */
  ghost predicate SameLowBits(k: int, n: int, bits: nat) {
    exists q: int {:trigger q * Power(bits)} :: k - n == q * Power(bits)
  }

  lemma IntWraps(w: Width, n: int)
    ensures -Power(Bits(w) - 1) <= TruncateInt(w, n) < Power(Bits(w) - 1) && SameLowBits(TruncateInt(w, n), n, Bits(w))
  {
    PowerOfWidth(w);
    var p, m := Power(Bits(w)), n + Modulus(w) / 2;
    assert m == m / p * p + m % p;
    assert TruncateInt(w, n) - n == -(m / p) * p;
  }

  lemma UintWraps(w: Width, n: int)
    ensures 0 <= TruncateUint(w, n) < Power(Bits(w)) && SameLowBits(TruncateUint(w, n), n, Bits(w))
  {
    PowerOfWidth(w);
    var p := Power(Bits(w));
    assert n == n / p * p + n % p;
    assert TruncateUint(w, n) - n == -(n / p) * p;
  }

  /** An int of any width: the low bits of a number of 64 bits, and 0 for any other text. */
  lemma IntOfText(w: Width, s: string)
    ensures var n := NumberIn(s, true); var a := ParseAtom(SInt(w), s);
      if n.Some? && -0x8000_0000_0000_0000 <= n.value < 0x8000_0000_0000_0000
      then a.Int? && -Power(Bits(w) - 1) <= a.n < Power(Bits(w) - 1) && SameLowBits(a.n, n.value, Bits(w))
      else a == Int(0)
  {
    IntReadsNumber(s);
    IntWraps(w, ParseInt(s).value);
  }

  /** An unsigned one likewise, without a sign. */
  lemma UintOfText(w: Width, s: string)
    ensures var n := NumberIn(s, false); var a := ParseAtom(SUint(w), s);
      if n.Some? && n.value < 0x1_0000_0000_0000_0000
      then a.Uint? && 0 <= a.u < Power(Bits(w)) && SameLowBits(a.u, n.value, Bits(w))
      else a == Uint(0)
  {
    UintReadsNumber(s);
    UintWraps(w, ParseUint(s).value);
  }

  // ---------- flags ----------

  /** Tab to carriage return, space, next line, no-break space, and the spaces from 0x1680 to 0x3000. */
  const SPACES: seq<int> := [0x09, 0x0A, 0x0B, 0x0C, 0x0D, 0x20, 0x85, 0xA0, 0x1680, 0x2000, 0x2001, 0x2002, 0x2003,
                             0x2004, 0x2005, 0x2006, 0x2007, 0x2008, 0x2009, 0x200A, 0x2028, 0x2029, 0x202F, 0x205F,
                             0x3000]

  /** The spaces of Unicode, by their codes. */
  lemma SpacesByCode(c: char)
    ensures IsSpace(c) <==> c as int in SPACES
  {
  }

  predicate AllSpace(s: string) {
    forall i :: 0 <= i < |s| ==> IsSpace(s[i])
  }

  /** The text is the word, some of its letters perhaps in capitals. */
  predicate Spells(s: string, word: string) {
    |s| == |word| && forall i :: 0 <= i < |s| ==>
      s[i] == word[i] || ('a' <= word[i] <= 'z' && s[i] as int == word[i] as int - 32)
  }

  predicate MeansFalse(s: string) {
    s == "" || s == "0" || s == "0.0" || Spells(s, "false") || Spells(s, "off") || Spells(s, "f")
  }

  lemma LowerSpells(s: string, word: string)
    requires forall i :: 0 <= i < |word| ==> Lower(word[i]) == word[i]
    ensures ToLower(s) == word <==> Spells(s, word)
  {
    assert |ToLower(s)| == |s| && forall i :: 0 <= i < |s| ==> ToLower(s)[i] == Lower(s[i]);
    if Spells(s, word) {
      assert forall i :: 0 <= i < |s| ==> Lower(s[i]) == word[i];
    } else if |s| == |word| {
      var i :| 0 <= i < |s| && !(s[i] == word[i] || ('a' <= word[i] <= 'z' && s[i] as int == word[i] as int - 32));
      assert ToLower(s)[i] != word[i];
    }
  }

  lemma NoCapitals(s: string, word: string)
    requires forall i :: 0 <= i < |word| ==> Lower(word[i]) == word[i] && !('a' <= word[i] <= 'z')
    ensures ToLower(s) == word <==> s == word
  {
    LowerSpells(s, word);
  }

  predicate FalseWord(s: string) {
    s == "" || s == "false" || s == "off" || s == "f" || s == "0" || s == "0.0"
  }

  lemma LowerMeansFalse(s: string)
    ensures FalseWord(ToLower(s)) <==> MeansFalse(s)
  {
    LowerSpells(s, "false");
    LowerSpells(s, "off");
    LowerSpells(s, "f");
    NoCapitals(s, "");
    NoCapitals(s, "0");
    NoCapitals(s, "0.0");
  }

  /** s[i..j] is the text between spaces. */
  predicate Between(s: string, i: nat, j: nat)
    requires i <= j <= |s|
  {
    AllSpace(s[..i]) && AllSpace(s[j..])
  }

  /** Between spaces, and whatever the case of its letters, the text is one of the six that mean false. */
  ghost predicate SaysFalse(s: string) {
    exists i: nat, j: nat :: i <= j <= |s| && Between(s, i, j) && MeansFalse(s[i..j])
  }

  lemma {:induction false} TrimLeftIs(s: string, i: nat)
    requires i <= |s| && AllSpace(s[..i]) && (i < |s| ==> !IsSpace(s[i]))
    ensures TrimLeft(s) == s[i..]
  {
    if i > 0 {
      assert s[0] == s[..i][0];
      assert s[1..][..i - 1] == s[..i][1..];
      TrimLeftIs(s[1..], i - 1);
      assert s[1..][i - 1..] == s[i..];
    }
  }

  lemma {:induction false} TrimRightIs(s: string, j: nat)
    requires j <= |s| && AllSpace(s[j..]) && (j > 0 ==> !IsSpace(s[j - 1]))
    ensures TrimRight(s) == s[..j]
    decreases |s|
  {
    if j < |s| {
      assert s[|s| - 1] == s[j..][|s| - 1 - j];
      var t := s[..|s| - 1];
      assert t[j..] == s[j..][..|s| - 1 - j];
      TrimRightIs(t, j);
      assert t[..j] == s[..j];
    }
  }

  lemma {:induction false} TrimLeftCuts(s: string) returns (i: nat)
    ensures i <= |s| && AllSpace(s[..i]) && TrimLeft(s) == s[i..]
  {
    i := 0;
    if s != "" && IsSpace(s[0]) {
      var k := TrimLeftCuts(s[1..]);
      i := k + 1;
      assert s[..i] == [s[0]] + s[1..][..k];
      assert s[1..][k..] == s[i..];
    }
  }

  lemma {:induction false} TrimRightCuts(s: string) returns (j: nat)
    ensures j <= |s| && AllSpace(s[j..]) && TrimRight(s) == s[..j]
    decreases |s|
  {
    j := |s|;
    if s != "" && IsSpace(s[|s| - 1]) {
      var t := s[..|s| - 1];
      j := TrimRightCuts(t);
      assert s[j..] == t[j..] + [s[|s| - 1]];
      assert t[..j] == s[..j];
    }
  }

  lemma LowerBetween(s: string, i: nat, j: nat)
    requires i <= j <= |s|
    ensures ToLower(s)[i..j] == ToLower(s[i..j]) && (Between(ToLower(s), i, j) <==> Between(s, i, j))
  {
    var l := ToLower(s);
    assert forall c :: IsSpace(Lower(c)) <==> IsSpace(c);
    assert forall k :: 0 <= k < i ==> l[..i][k] == Lower(s[..i][k]);
    assert forall k :: 0 <= k < |s| - j ==> l[j..][k] == Lower(s[j..][k]);
    assert AllSpace(l[..i]) <==> AllSpace(s[..i]);
    assert AllSpace(l[j..]) <==> AllSpace(s[j..]);
    assert l[i..j] == ToLower(s[i..j]);
  }

  lemma NoSpaceAround(s: string)
    requires FalseWord(s) && s != ""
    ensures !IsSpace(s[0]) && !IsSpace(s[|s| - 1])
  {
  }

  lemma TrimFinds(l: string, i: nat, j: nat)
    requires i <= j <= |l| && Between(l, i, j) && FalseWord(l[i..j])
    ensures TrimRight(TrimLeft(l)) == l[i..j]
  {
    if i == j {
      assert l == l[..i] + l[j..];
      assert l[..|l|] == l;
      TrimLeftIs(l, |l|);
    } else {
      NoSpaceAround(l[i..j]);
      TrimLeftIs(l, i);
      assert l[i..][j - i..] == l[j..] && l[i..][..j - i] == l[i..j];
      TrimRightIs(l[i..], j - i);
    }
  }

  lemma TrimCuts(l: string) returns (i: nat, j: nat)
    ensures i <= j <= |l| && Between(l, i, j) && TrimRight(TrimLeft(l)) == l[i..j]
  {
    i := TrimLeftCuts(l);
    var k := TrimRightCuts(l[i..]);
    j := i + k;
    assert l[i..][..k] == l[i..j] && l[i..][k..] == l[j..];
  }

  /** Every text is true unless it says false. */
  lemma FlagOfText(s: string)
    ensures ParseAtom(SBool, s) == Bool(!SaysFalse(s))
  {
    if SaysFalse(s) {
      var i: nat, j: nat :| i <= j <= |s| && Between(s, i, j) && MeansFalse(s[i..j]);
      LowerMeansFalse(s[i..j]);
      LowerBetween(s, i, j);
      TrimFinds(ToLower(s), i, j);
    } else {
      var i, j := TrimCuts(ToLower(s));
      LowerMeansFalse(s[i..j]);
      LowerBetween(s, i, j);
    }
  }
}
