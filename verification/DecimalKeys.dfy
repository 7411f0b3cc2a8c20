/** Decimal numerals and the cache and order keys built from them. Numbers are 64-bit: they wrap around. */
module DecimalKeys {
  const MIN_INT: int := -0x8000_0000_0000_0000
  const MAX_INT: int := 0x7fff_ffff_ffff_ffff
  const WORD: int := 0x1_0000_0000_0000_0000

  type int64 = n: int | MIN_INT <= n <= MAX_INT

  /** The 64-bit number that an exact result is stored as. */
  function Wrap(n: int): (w: int64)
    ensures MIN_INT <= n <= MAX_INT ==> w == n
  {
    var r := n % WORD;
    if r > MAX_INT then r - WORD else r
  }

  // ---------- numerals ----------

  predicate IsDigit(c: char) {
    '0' <= c <= '9'
  }

  function Digit(d: nat): (c: char)
    requires d < 10
    ensures IsDigit(c) && DigitValue(c) == d
  {
    '0' + d as char
  }

  function DigitValue(c: char): (d: nat)
    requires IsDigit(c)
    ensures d < 10
  {
    (c - '0') as int
  }

  function Digits(n: nat): (s: string)
    ensures s != ""
    ensures forall i :: 0 <= i < |s| ==> IsDigit(s[i])
  {
    if n < 10 then [Digit(n)] else Digits(n / 10) + [Digit(n % 10)]
  }

  function Decimal(n: int): string {
    if n < 0 then "-" + Digits(-n) else Digits(n)
  }

  /** What a string of digits denotes. */
  function ValueOf(s: string): nat
    requires forall i :: 0 <= i < |s| ==> IsDigit(s[i])
    decreases |s|
  {
    if s == "" then 0 else ValueOf(s[..|s| - 1]) * 10 + DigitValue(s[|s| - 1])
  }

  lemma {:induction false} DigitsDenote(n: nat)
    ensures ValueOf(Digits(n)) == n
  {
    var s := Digits(n);
    if n >= 10 {
      DigitsDenote(n / 10);
      assert s[..|s| - 1] == Digits(n / 10);
    } else {
      assert s[..|s| - 1] == "";
    }
  }

  lemma DecimalIsInjective(m: int, n: int)
    requires Decimal(m) == Decimal(n)
    ensures m == n
  {
    hide Digits, ValueOf;
    var a, b := if m < 0 then -m else m, if n < 0 then -n else n;
    DigitsDenote(a);
    DigitsDenote(b);
    if m < 0 && n < 0 {
      assert Decimal(m)[1..] == Digits(a) && Decimal(n)[1..] == Digits(b);
    } else {
      assert Digits(a)[0] != '-' && Digits(b)[0] != '-';
    }
  }

  // ---------- the buffer ----------

  function Pow10(k: nat): (p: nat)
    ensures p > 0
  {
    if k == 0 then 1 else 10 * Pow10(k - 1)
  }

  /** The digits still to be written. */
  function Leading(n: nat): string {
    if n == 0 then "" else Digits(n)
  }

  lemma Nineteen()
    ensures Pow10(19) == 10_000_000_000_000_000_000
  {
    assert Pow10(9) == 1_000_000_000;
    assert Pow10(14) == 100_000_000_000_000;
  }

  /** What the numeral comes out as: the lowest 64-bit number has no positive counterpart and keeps only its sign. */
  function Itoa(n: int64): string {
    if n == MIN_INT then "-" else Decimal(n)
  }

  /** The digits are written backwards into twenty bytes, which always are enough. */
  method WriteItoa(number: int64) returns (s: string)
    ensures s == Itoa(number)
  {
    hide Digits, Pow10, Leading, Wrap, Itoa;
    ItoaParts(number);
    if number == 0 { s := "0"; return; }
    var n: int64 := number;
    var neg := n < 0;
    if neg { n := Wrap(-(number as int)); }
    ghost var all := Leading(if n < 0 then 0 else n);
    var buf := new char[20](i => '\0');
    var i := buf.Length;
    Nineteen();
    while n > 0
      invariant 0 < i <= 20 == buf.Length
      invariant n > 0 ==> n < Pow10(i - 1)
      invariant n >= 0 ==> Leading(n) + buf[i..] == all
      invariant n < 0 ==> n == MIN_INT && i == 20 && all == ""
      decreases if n < 0 then 0 else n
    {
      PowDown(n, i - 1);
      LeadingStep(n, buf[i..]);
      i := i - 1;
      buf[i] := Digit(n % 10);
      assert buf[i..] == [Digit(n % 10)] + buf[i + 1..];
      n := n / 10;
    }
    assert buf[i..] == all;
    if neg {
      i := i - 1;
      buf[i] := '-';
      assert buf[i..] == "-" + buf[i + 1..];
    }
    s := buf[i..];
  }

  lemma ItoaParts(n: int64)
    ensures n == 0 ==> Itoa(n) == "0"
    ensures n > 0 ==> Itoa(n) == Leading(n)
    ensures n < 0 ==> var m := Wrap(-(n as int));
                      && (m < 0 <==> n == MIN_INT) && (m < 0 ==> m == n)
                      && Itoa(n) == "-" + Leading(if m < 0 then 0 else m)
    ensures Leading(0) == ""
  {
  }

  lemma PowDown(n: nat, k: nat)
    requires 0 < n < Pow10(k)
    ensures k > 0 && n / 10 < Pow10(k - 1)
  {
  }

  lemma LeadingStep(n: nat, rest: string)
    requires n > 0
    ensures Leading(n) + rest == Leading(n / 10) + ([Digit(n % 10)] + rest)
  {
  }

  // ---------- reading a number back ----------

  /** Digits are taken up to the first other character; a sign is one. */
  function Parsed(s: string, n: int64): int64
    decreases |s|
  {
    if s == "" || !IsDigit(s[0]) then n else Parsed(s[1..], Wrap(n * 10 + DigitValue(s[0])))
  }

  method ParseInt64(s: string) returns (n: int64)
    ensures n == Parsed(s, 0)
  {
    n := 0;
    var i := 0;
    while i < |s|
      invariant 0 <= i <= |s|
      invariant Parsed(s[i..], n) == Parsed(s, 0)
    {
      if !IsDigit(s[i]) { return; }
      n := Wrap(n * 10 + DigitValue(s[i]));
      assert s[i..][1..] == s[i + 1..];
      i := i + 1;
    }
  }

  /** Reading goes on from what the digits already read denote. */
  lemma {:induction false} ParsedPrefix(s: string, tail: string)
    requires forall i :: 0 <= i < |s| ==> IsDigit(s[i])
    requires ValueOf(s) <= MAX_INT
    ensures Parsed(s + tail, 0) == Parsed(tail, ValueOf(s))
    decreases |s|
  {
    if s == "" {
      assert s + tail == tail;
    } else {
      var last := [s[|s| - 1]];
      ParsedPrefix(s[..|s| - 1], last + tail);
      assert s[..|s| - 1] + (last + tail) == s + tail;
      assert (last + tail)[1..] == tail;
    }
  }

  /** Reading inverts writing on non-negative numbers, whatever non-digit follows; a negative one reads as zero. */
  lemma ParseInvertsItoa(n: int64, tail: string)
    requires tail == "" || !IsDigit(tail[0])
    ensures n >= 0 ==> Parsed(Itoa(n) + tail, 0) == n
    ensures n < 0 ==> Parsed(Itoa(n) + tail, 0) == 0
  {
    if n >= 0 {
      DigitsDenote(n);
      ParsedPrefix(Digits(n), tail);
    } else {
      assert (Itoa(n) + tail)[0] == '-';
    }
  }

  // ---------- keys ----------

  function CacheKey(source: string, address: string, limit: int64): string {
    "orders:" + source + ":" + address + ":" + Itoa(limit)
  }

  function OutputKey(txHash: string, outputIndex: int64): string {
    txHash + ":" + Decimal(outputIndex)
  }

  lemma FirstColon(a: string, x: string)
    requires ':' !in a
    ensures var s := a + ":" + x;
            s[|a|] == ':' && s[..|a|] == a && s[|a| + 1..] == x && forall i :: 0 <= i < |a| ==> s[i] != ':'
  {
    assert (a + ":" + x)[..|a|] == a;
  }

  lemma LastColon(x: string, a: string)
    requires ':' !in a
    ensures var s := x + ":" + a;
            s[|x|] == ':' && s[..|x|] == x && s[|x| + 1..] == a && forall i :: |x| < i < |s| ==> s[i] != ':'
  {
    assert (x + ":" + a)[|x| + 1..] == a;
  }

  lemma SplitFirst(a: string, x: string, b: string, y: string)
    requires a + ":" + x == b + ":" + y && ':' !in a && ':' !in b
    ensures a == b && x == y
  {
    FirstColon(a, x);
    FirstColon(b, y);
    assert |a| == |b|;
  }

  lemma SplitLast(x: string, a: string, y: string, b: string)
    requires x + ":" + a == y + ":" + b && ':' !in a && ':' !in b
    ensures x == y && a == b
  {
    LastColon(x, a);
    LastColon(y, b);
    assert |x| == |y|;
  }

  lemma ItoaHasNoColon(n: int64)
    ensures ':' !in Itoa(n) && ':' !in Decimal(n)
  {
  }

  lemma ItoaIsInjective(m: int64, n: int64)
    requires Itoa(m) == Itoa(n)
    ensures m == n
  {
    if m != MIN_INT && n != MIN_INT {
      DecimalIsInjective(m, n);
    } else {
      NotJustASign(m);
      NotJustASign(n);
    }
  }

  lemma NotJustASign(n: int)
    ensures Decimal(n) != "-"
  {
    hide Digits;
    if n < 0 {
      assert |Decimal(n)| == 1 + |Digits(-n)|;
    } else {
      assert IsDigit(Digits(n)[0]);
    }
  }

  /** Sources whose names have no colon never share a cache key, whatever the addresses. */
  lemma CacheKeyIsInjective(source: string, address: string, limit: int64,
                            source': string, address': string, limit': int64)
    requires ':' !in source && ':' !in source'
    requires CacheKey(source, address, limit) == CacheKey(source', address', limit')
    ensures source == source' && address == address' && limit == limit'
  {
    hide Itoa;
    ItoaHasNoColon(limit);
    ItoaHasNoColon(limit');
    SplitLast("orders:" + source + ":" + address, Itoa(limit), "orders:" + source' + ":" + address', Itoa(limit'));
    ItoaIsInjective(limit, limit');
    assert ("orders:" + source + ":" + address)[7..] == source + ":" + address;
    assert ("orders:" + source' + ":" + address')[7..] == source' + ":" + address';
    SplitFirst(source, address, source', address');
  }

  /** A name with a colon always shares its keys: with the source named by what stands before the colon, at the
      address that starts with what stands after it. */
  lemma ColonNamesCollide(before: string, after: string, address: string, limit: int64)
    ensures CacheKey(before + ":" + after, address, limit) == CacheKey(before, after + ":" + address, limit)
  {
    hide Itoa;
    assert before + ":" + after + ":" + address == before + ":" + (after + ":" + address);
    assert "orders:" + (before + ":" + after) + ":" + address == "orders:" + (before + ":" + after + ":" + address);
    assert "orders:" + before + ":" + (after + ":" + address) == "orders:" + (before + ":" + (after + ":" + address));
  }

  lemma OutputKeyIsInjective(txHash: string, index: int64, txHash': string, index': int64)
    requires OutputKey(txHash, index) == OutputKey(txHash', index')
    ensures txHash == txHash' && index == index'
  {
    hide Decimal;
    ItoaHasNoColon(index);
    ItoaHasNoColon(index');
    SplitLast(txHash, Decimal(index), txHash', Decimal(index'));
    DecimalIsInjective(index, index');
  }
}
