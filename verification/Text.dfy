/** Strings as the Go standard library reads them: numbers, white space, separators. */
module Text {
  import opened Common

  predicate IsDigit(c: char) {
    '0' <= c <= '9'
  }

  predicate Digits(s: string) {
    s != [] && forall c :: c in s ==> IsDigit(c)
  }

  function DigitsValue(s: string): int
    requires forall c :: c in s ==> IsDigit(c)
  {
    if s == [] then 0 else DigitsValue(s[..|s| - 1]) * 10 + (s[|s| - 1] as int - '0' as int)
  }

  const MAX_INT64 := 0x7fff_ffff_ffff_ffff
  const MIN_INT64 := -0x8000_0000_0000_0000

  predicate IsInt64(n: int) {
    MIN_INT64 <= n <= MAX_INT64
  }

  function Unsigned(s: string): string {
    if s != [] && s[0] in ['+', '-'] then s[1..] else s
  }

  /** A 64-bit integer in decimal notation with an optional sign, or nothing. */
  function ParseInt(s: string): Option<int> {
    if !Digits(Unsigned(s)) then None
    else
      var n := if s[0] == '-' then -DigitsValue(Unsigned(s)) else DigitsValue(Unsigned(s));
      if IsInt64(n) then Some(n) else None
  }

  /**
   * The number a string stands for when errors are ignored: 0 if it is not a
   * number, the nearest 64-bit integer if it is out of range.
   */
  function IntegerOf(s: string): int {
    var unsigned := Unsigned(s);
    if !Digits(unsigned) then 0
    else if s[0] == '-' then (if -DigitsValue(unsigned) < MIN_INT64 then MIN_INT64 else -DigitsValue(unsigned))
    else if DigitsValue(unsigned) > MAX_INT64 then MAX_INT64 else DigitsValue(unsigned)
  }

  /** An integer in decimal notation. */
  function Decimal(n: int): (s: string)
    ensures s != []
    decreases if n < 0 then 1 else 0, if n < 0 then -n else n
  {
    if n < 0 then "-" + Decimal(-n)
    else if n < 10 then ['0' + n as char]
    else Decimal(n / 10) + ['0' + (n % 10) as char]
  }

  lemma {:induction false} DecimalDigits(n: nat)
    ensures Digits(Decimal(n)) && DigitsValue(Decimal(n)) == n
  {
    if n < 10 {
      assert Decimal(n)[..0] == [];
    } else {
      DecimalDigits(n / 10);
      var s := Decimal(n);
      assert s[..|s| - 1] == Decimal(n / 10);
    }
  }

  /** Decimal notation reads back as the number. */
  lemma ParseIntOfDecimal(n: int)
    requires IsInt64(n)
    ensures ParseInt(Decimal(n)) == Some(n)
  {
    var m := if n < 0 then -n else n;
    DecimalDigits(m);
    assert Decimal(m)[0] in Decimal(m);
    if n < 0 {
      assert Decimal(n) == "-" + Decimal(m);
      assert Unsigned(Decimal(n)) == Decimal(m);
    } else {
      assert Unsigned(Decimal(n)) == Decimal(m);
    }
  }

  /** One sign may come before the digits, and it may be a plus. */
  lemma SignsAreRead(digits: string)
    requires Digits(digits)
    ensures var n := DigitsValue(digits);
      && ParseInt(digits) == ParseInt("+" + digits) == (if n <= MAX_INT64 then Some(n) else None)
      && ParseInt("-" + digits) == if -n >= MIN_INT64 then Some(-n) else None
  {
    DigitsNotNegative(digits);
    assert digits[0] in digits;
    assert Unsigned("+" + digits) == digits == Unsigned("-" + digits) == Unsigned(digits);
  }

  /** Nothing else is read as an integer. */
  lemma OnlyNumbersAreRead(s: string)
    requires ParseInt(s).Some?
    ensures Digits(s) || exists d :: Digits(d) && (s == "+" + d || s == "-" + d)
  {
    var d := Unsigned(s);
    if d != s {
      assert s == [s[0]] + d;
    }
  }

  /** A string that is not a number, or not one of 64 bits, is replaced by 0 or by the end of the range. */
  lemma UnreadIntegers(s: string)
    requires ParseInt(s).None?
    ensures IntegerOf(s) in {MIN_INT64, 0, MAX_INT64}
  {
    if Digits(Unsigned(s)) {
      DigitsNotNegative(Unsigned(s));
    }
  }

  lemma {:induction false} DigitsNotNegative(s: string)
    requires forall c :: c in s ==> IsDigit(c)
    ensures DigitsValue(s) >= 0
  {
    if s != [] {
      assert s[|s| - 1] in s && forall c :: c in s[..|s| - 1] ==> c in s;
      DigitsNotNegative(s[..|s| - 1]);
    }
  }

  /** When errors are ignored, numbers out of range are replaced by the nearest one in range. */
  lemma NearestInteger(n: int)
    ensures IntegerOf(Decimal(n)) == if n < MIN_INT64 then MIN_INT64 else if n > MAX_INT64 then MAX_INT64 else n
    ensures ParseInt(Decimal(n)) == if IsInt64(n) then Some(n) else None
  {
    var m := if n < 0 then -n else n;
    DecimalDigits(m);
    assert Decimal(m)[0] in Decimal(m);
    assert n < 0 ==> Decimal(n) == "-" + Decimal(m);
    assert Unsigned(Decimal(n)) == Decimal(m);
  }

  /** Boolean words. */
  function ParseBool(s: string): Option<bool> {
    if s in ["1", "t", "T", "TRUE", "true", "True"] then Some(true)
    else if s in ["0", "f", "F", "FALSE", "false", "False"] then Some(false)
    else None
  }

  /** The parts of a string between separators: always one more than there are separators. */
  function Split(s: string, sep: char): (parts: seq<string>)
    ensures |parts| >= 1
  {
    if s == [] then [[]]
    else
      var rest := Split(s[1..], sep);
      if s[0] == sep then [[]] + rest else [[s[0]] + rest[0]] + rest[1..]
  }

  lemma {:induction false} SplitAppend(v: string, sep: char, w: string)
    requires sep !in w
    ensures Split(v + [sep] + w, sep) == Split(v, sep) + [w]
  {
    if v == [] {
      assert v + [sep] + w == [sep] + w;
      SplitWhole(w, sep);
    } else {
      assert (v + [sep] + w)[1..] == v[1..] + [sep] + w;
      SplitAppend(v[1..], sep, w);
    }
  }

  lemma {:induction false} SplitWhole(w: string, sep: char)
    requires sep !in w
    ensures Split(w, sep) == [w]
  {
    if w != [] {
      SplitWhole(w[1..], sep);
      assert [w[0]] + w[1..] == w;
    }
  }

  function Join(parts: seq<string>, sep: char): string {
    if parts == [] then "" else if |parts| == 1 then parts[0]
    else Join(parts[..|parts| - 1], sep) + [sep] + parts[|parts| - 1]
  }

  /** Parts without the separator come back from splitting what joins them. */
  lemma {:induction false} SplitJoin(parts: seq<string>, sep: char)
    requires parts != [] && forall p :: p in parts ==> sep !in p
    ensures Split(Join(parts, sep), sep) == parts
  {
    var init, last := parts[..|parts| - 1], parts[|parts| - 1];
    assert parts == init + [last];
    if |parts| == 1 {
      SplitWhole(last, sep);
    } else {
      SplitJoin(init, sep);
      SplitAppend(Join(init, sep), sep, last);
    }
  }

  /** Unicode white space. */
  predicate IsSpace(c: char) {
    var n := c as int;
    9 <= n <= 13 || n == 32 || n == 0x85 || n == 0xA0 || n == 0x1680 || 0x2000 <= n <= 0x200A
    || n == 0x2028 || n == 0x2029 || n == 0x202F || n == 0x205F || n == 0x3000
  }

  function TrimLeft(s: string): string {
    if s != [] && IsSpace(s[0]) then TrimLeft(s[1..]) else s
  }

  function TrimRight(s: string): string {
    if s != [] && IsSpace(s[|s| - 1]) then TrimRight(s[..|s| - 1]) else s
  }

  /** A string without the white space around it. */
  function TrimSpace(s: string): string {
    TrimRight(TrimLeft(s))
  }

  predicate Trimmed(s: string) {
    s == [] || (!IsSpace(s[0]) && !IsSpace(s[|s| - 1]))
  }

  lemma TrimmedStays(s: string)
    requires Trimmed(s)
    ensures TrimSpace(s) == s
  {
  }

  lemma {:induction false} TrimLeftTrims(s: string)
    ensures TrimLeft(s) == [] || !IsSpace(TrimLeft(s)[0])
  {
    if s != [] && IsSpace(s[0]) {
      TrimLeftTrims(s[1..]);
    }
  }

  lemma {:induction false} TrimRightTrims(s: string)
    ensures TrimRight(s) == [] || (s != [] && TrimRight(s)[0] == s[0] && !IsSpace(TrimRight(s)[|TrimRight(s)| - 1]))
  {
    if s != [] && IsSpace(s[|s| - 1]) {
      TrimRightTrims(s[..|s| - 1]);
    }
  }

  lemma TrimIsTrimmed(s: string)
    ensures Trimmed(TrimSpace(s))
  {
    TrimLeftTrims(s);
    TrimRightTrims(TrimLeft(s));
  }
}
