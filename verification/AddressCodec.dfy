/** From the wallet's address (a CBOR byte string in hexadecimal) to Bech32 text: the header is dropped, the bytes
    are regrouped into 5-bit symbols, and the checksum is appended. */
module AddressCodec {
  import opened Wrappers
  import opened Bits
  import opened Cbor
  import opened Bech32Checksum
  import opened Bech32Field
  import CardanoTx

  // ---------- regrouping bits ----------

  /** The least number of digits of `to` bits that hold `n` digits of `from` bits. */
  function Groups(n: nat, from: nat, to: nat): (g: nat)
    requires to > 0
    ensures n * from <= g * to < n * from + to
  {
    (n * from + to - 1) / to
  }

  /** The digits read as one number, padded with zero bits at the low end to a whole number of groups, and cut
      into groups of `to` bits. */
  function Regroup(data: seq<nat>, from: nat, to: nat): (r: seq<nat>)
    requires to > 0
    ensures AreDigits(r, to)
  {
    var g := Groups(|data|, from, to);
    Cut(ShiftLeft(Value(data, from), g * to - |data| * from), g, to)
  }

  /** The same without padding: the bits that do not fill a group are dropped. */
  function RegroupWhole(data: seq<nat>, from: nat, to: nat): seq<nat>
    requires to > 0
  {
    var g := |data| * from / to;
    Cut(ShiftRight(Value(data, from), |data| * from - g * to), g, to)
  }

  /** The register of the source is a 32-bit integer that wraps. It is kept here as the number its 32 bits make;
      the sign that a shift to the right would bring in never reaches the bits that are kept, because at most
      `from + to` bits are in use. */
  method ConvertBits(data: seq<int>, from: nat, to: nat, pad: bool) returns (r: Option<seq<nat>>)
    requires 0 < from && 0 < to && from + to <= 32
    ensures r.None? <==> exists i :: 0 <= i < |data| && !(0 <= data[i] < Pow2(from))
    ensures r.Some? ==> var digits := seq(|data|, i requires 0 <= i < |data| => if data[i] < 0 then 0 else data[i]);
              r.value == if pad then Regroup(digits, from, to) else RegroupWhole(digits, from, to)
  {
    hide Value, Cut, ShiftLeft, ShiftRight, LowBits, Regroup, RegroupWhole, Pow2;
    var acc: nat, bits: nat := 0, 0;
    var out: seq<nat> := [];
    ghost var read: seq<nat> := [];
    Empty(from, to);
    for k := 0 to |data|
      invariant forall i :: 0 <= i < k ==> 0 <= data[i] < Pow2(from)
      invariant |read| == k && forall i :: 0 <= i < k ==> read[i] == data[i]
      invariant bits < to && k * from == |out| * to + bits
      invariant acc == LowBits(Value(read, from), 32)
      invariant AreDigits(out, to) && Value(out, to) == ShiftRight(Value(read, from), bits)
    {
      var value := data[k];
      if value < 0 || value >= Pow2(from) { return None; }
      acc := LowBits(ShiftLeft(acc, from) + value, 32);
      NextDigit(read, value, from, bits);
      read := read + [value];
      bits, out := TakeGroups(Value(read, from), acc, bits + from, out, to);
      Distribute(k, from);
    }
    assert read == seq(|data|, i requires 0 <= i < |data| => if data[i] < 0 then 0 else data[i]);
    out := Flush(read, from, acc, bits, out, to, pad);
    return Some(out);
  }

  /** What is left in the register becomes one more group, filled up with zero bits, or is dropped. */
  method Flush(ghost read: seq<nat>, ghost from: nat, acc: nat, bits: nat, written: seq<nat>, to: nat, pad: bool)
    returns (out: seq<nat>)
    requires 0 < to <= 32 && bits < to && |read| * from == |written| * to + bits
    requires acc == LowBits(Value(read, from), 32)
    requires AreDigits(written, to) && Value(written, to) == ShiftRight(Value(read, from), bits)
    ensures out == if pad then Regroup(read, from, to) else RegroupWhole(read, from, to)
  {
    hide Value, Cut, ShiftLeft, ShiftRight, LowBits;
    GroupCount(|read| * from, |written|, bits, to);
    out := written;
    if pad && bits > 0 {
      LastGroup(Value(read, from), out, bits, to);
      Distribute(|out|, to);
      out := out + [LowBits(ShiftLeft(acc, to - bits), to)];
    } else if bits == 0 {
      Unshifted(Value(read, from));
    }
    ValueRoundTrip(out, to);
  }

  /** Move every whole group from the register to the output. */
  method TakeGroups(ghost v: nat, acc: nat, count: nat, written: seq<nat>, to: nat)
    returns (bits: nat, out: seq<nat>)
    requires 0 < to && count <= 32 && acc == LowBits(v, 32)
    requires AreDigits(written, to) && Value(written, to) == ShiftRight(v, count)
    ensures bits < to && |written| * to + count == |out| * to + bits
    ensures AreDigits(out, to) && Value(out, to) == ShiftRight(v, bits)
  {
    hide Value, Cut, ShiftLeft, ShiftRight, LowBits;
    bits, out := count, written;
    while bits >= to
      invariant bits <= 32 && |written| * to + count == |out| * to + bits
      invariant AreDigits(out, to) && Value(out, to) == ShiftRight(v, bits)
    {
      bits := bits - to;
      NextGroup(v, out, bits, to);
      Distribute(|out|, to);
      out := out + [LowBits(ShiftRight(acc, bits), to)];
    }
  }

  lemma Monotone(x: nat, y: nat, w: nat)
    requires x <= y
    ensures x * w <= y * w
  {
  }

  lemma Distribute(k: nat, w: nat)
    ensures (k + 1) * w == k * w + w
  {
  }

  lemma Empty(from: nat, to: nat)
    ensures Value([], from) == 0 && Value([], to) == 0 && LowBits(0, 32) == 0 && ShiftRight(0, 0) == 0
  {
    SmallHasNoTop(0, 32);
  }

  lemma Unshifted(v: nat)
    ensures ShiftLeft(v, 0) == v && ShiftRight(v, 0) == v
  {
  }

  lemma NextDigit(read: seq<nat>, value: nat, from: nat, bits: nat)
    requires value < Pow2(from) && from <= 32
    ensures LowBits(ShiftLeft(LowBits(Value(read, from), 32), from) + value, 32)
            == LowBits(Value(read + [value], from), 32)
    ensures ShiftRight(Value(read + [value], from), bits + from) == ShiftRight(Value(read, from), bits)
  {
    hide LowBits, ShiftLeft, ShiftRight;
    ValueAppend(read, value, from);
    LowOfShifted(Value(read, from), from, value, 32, 32);
    ShiftBack(Value(read, from), value, from, bits);
  }

  lemma GroupCount(total: nat, whole: nat, bits: nat, to: nat)
    requires bits < to && total == whole * to + bits
    ensures total / to == whole
    ensures (total + to - 1) / to == if bits > 0 then whole + 1 else whole
  {
    QuotientIs(total, whole, to);
    QuotientIs(total + to - 1, if bits > 0 then whole + 1 else whole, to);
  }

  lemma QuotientIs(total: nat, q: nat, to: nat)
    requires 0 < to && q * to <= total < (q + 1) * to
    ensures total / to == q
  {
    var d := total / to;
    assert d * to <= total < (d + 1) * to;
    if d < q { Monotone(d + 1, q, to); }
    if d > q { Monotone(q + 1, d, to); }
  }

  /** Taking the next `to` bits of the register extends the number already written by one group. */
  lemma NextGroup(v: nat, out: seq<nat>, bits: nat, to: nat)
    requires AreDigits(out, to) && Value(out, to) == ShiftRight(v, bits + to) && bits + to <= 32
    ensures var digit := LowBits(ShiftRight(LowBits(v, 32), bits), to);
            AreDigits(out + [digit], to) && Value(out + [digit], to) == ShiftRight(v, bits)
  {
    hide Value, ShiftLeft, ShiftRight, LowBits;
    WindowOfLow(v, bits, to, 32);
    ShiftRightAdd(v, bits, to);
    Reassemble(ShiftRight(v, bits), to);
    ValueAppend(out, LowBits(ShiftRight(v, bits), to), to);
  }

  lemma LastGroup(v: nat, out: seq<nat>, bits: nat, to: nat)
    requires AreDigits(out, to) && Value(out, to) == ShiftRight(v, bits) && bits <= to <= 32
    ensures var digit := LowBits(ShiftLeft(LowBits(v, 32), to - bits), to);
            AreDigits(out + [digit], to) && Value(out + [digit], to) == ShiftLeft(v, to - bits)
  {
    hide Value, ShiftLeft, ShiftRight, LowBits;
    var z := to - bits;
    Unshifted(v);
    LowOfShifted(v, z, 0, to, 32);
    ShiftBack(v, 0, z, bits);
    Reassemble(ShiftLeft(v, z), to);
    ValueAppend(out, LowBits(ShiftLeft(v, z), to), to);
  }

  // ---------- regrouping loses nothing ----------

  lemma RegroupValue(data: seq<nat>, from: nat, to: nat)
    requires to > 0 && AreDigits(data, from)
    ensures |Regroup(data, from, to)| == Groups(|data|, from, to)
    ensures Value(Regroup(data, from, to), to)
         == ShiftLeft(Value(data, from), Groups(|data|, from, to) * to - |data| * from)
  {
    hide Value, Cut, ShiftLeft, Groups, Pow2;
    var g := Groups(|data|, from, to);
    var z := g * to - |data| * from;
    ValueRange(data, from);
    ShiftLeftRange(Value(data, from), from * |data|, z);
    assert from * |data| + z == to * g;
    CutRoundTrip(ShiftLeft(Value(data, from), z), g, to);
  }

  lemma SameLength(m: nat, n: nat, from: nat, to: nat)
    requires 0 < to <= from && Groups(m, from, to) == Groups(n, from, to)
    ensures m == n
  {
    hide Groups;
    if m < n {
      Monotone(m + 1, n, from);
      Distribute(m, from);
    } else if n < m {
      Monotone(n + 1, m, from);
      Distribute(n, from);
    }
  }

  /** Regrouping into narrower digits is injective: the padding never hides where the data ended. */
  lemma RegroupInjective(a: seq<nat>, b: seq<nat>, from: nat, to: nat)
    requires 0 < to <= from && AreDigits(a, from) && AreDigits(b, from)
    requires Regroup(a, from, to) == Regroup(b, from, to)
    ensures a == b
  {
    hide Value, Cut, ShiftLeft, Groups, Regroup;
    RegroupValue(a, from, to);
    RegroupValue(b, from, to);
    SameLength(|a|, |b|, from, to);
    ShiftLeftInjective(Value(a, from), Value(b, from), Groups(|a|, from, to) * to - |a| * from);
    ValueRoundTrip(a, from);
    ValueRoundTrip(b, from);
  }

  // ---------- text ----------

  const CHARSET: string := "qpzry9x8gf2tvdw0s3jn54khce6mua7l"

  function Codes(hrp: string): (codes: seq<nat>)
    ensures |codes| == |hrp|
  {
    seq(|hrp|, i requires 0 <= i < |hrp| => hrp[i] as nat)
  }

  function Letters(values: seq<nat>): (s: string)
    requires Symbols(values)
    ensures |s| == |values|
  {
    seq(|values|, i requires 0 <= i < |values| => CHARSET[values[i]])
  }

  function Bech32Text(hrp: string, data: seq<nat>): string
    requires Symbols(data)
  {
    SymbolsAreDigits(Checksum(Codes(hrp), data));
    hrp + "1" + Letters(data + Checksum(Codes(hrp), data))
  }

  method ExpandPrefix(hrp: string) returns (r: seq<nat>)
    ensures r == HrpExpand(Codes(hrp)) && |r| == 2 * |hrp| + 1 && r[|hrp|] == 0
    ensures forall i :: 0 <= i < |hrp| ==> r[i] == hrp[i] as nat / 32 && r[|hrp| + 1 + i] == hrp[i] as nat % 32
  {
    forall i | 0 <= i < |hrp|
      ensures HrpExpand(Codes(hrp))[i] == hrp[i] as nat / 32
      ensures HrpExpand(Codes(hrp))[|hrp| + 1 + i] == hrp[i] as nat % 32
    {
      ExpandedAt(Codes(hrp), i);
    }
    r := [];
    for i := 0 to |hrp|
      invariant r == seq(i, k requires 0 <= k < i => ShiftRight(Codes(hrp)[k], 5))
    {
      r := r + [ShiftRight(hrp[i] as nat, 5)];
    }
    r := r + [0];
    ghost var high := r;
    for i := 0 to |hrp|
      invariant r == high + seq(i, k requires 0 <= k < i => LowBits(Codes(hrp)[k], 5))
    {
      r := r + [LowBits(hrp[i] as nat, 5)];
    }
  }

  lemma {:induction false} CutAt(m: nat, n: nat, i: nat)
    requires i < n
    ensures Cut(m, n, 5)[i] == LowBits(ShiftRight(m, 5 * (n - 1 - i)), 5)
    decreases n
  {
    if i < n - 1 {
      CutAt(ShiftRight(m, 5), n - 1, i);
      ShiftRightAdd(m, 5, 5 * (n - 2 - i));
    }
  }

  method CreateChecksum(hrp: string, data: seq<nat>) returns (sum: seq<nat>)
    ensures sum == Checksum(Codes(hrp), data)
  {
    hide Cut, Run, Xor, ShiftRight, LowBits;
    var expanded := ExpandPrefix(hrp);
    var values := expanded + data + [0, 0, 0, 0, 0, 0];
    assert Zeros(6) == [0, 0, 0, 0, 0, 0];
    var chk := Polymod(values);
    var mod := Xor(chk, 1);
    sum := [];
    for i := 0 to 6
      invariant |sum| == i && sum == Cut(mod, 6, 5)[..i]
    {
      CutAt(mod, 6, i);
      sum := sum + [LowBits(ShiftRight(mod, 5 * (5 - i)), 5)];
    }
  }

  method Bech32Encode(hrp: string, data: seq<nat>) returns (s: string)
    requires Symbols(data)
    ensures s == Bech32Text(hrp, data)
  {
    hide Checksum;
    var sum := CreateChecksum(hrp, data);
    SymbolsAreDigits(sum);
    var combined := data + sum;
    s := hrp + "1";
    for i := 0 to |combined|
      invariant s == hrp + "1" + Letters(combined)[..i]
    {
      s := s + [CHARSET[combined[i]]];
    }
  }

  /** A string that BIP-173 lists as valid: the prefix "a" and no data. */
  lemma PublishedText()
    ensures Symbols([]) && Bech32Text("a", []) == "a12uel5l"
  {
    hide Run, Cut, Xor, Value;
    PublishedWord();
    PublishedRegister();
    PublishedSum();
    PublishedLetters();
  }

  lemma PublishedWord()
    ensures Codes("a") == [97] && HrpExpand([97]) + [] + Zeros(6) == [3, 0, 1, 0, 0, 0, 0, 0, 0]
  {
    hide ShiftRight, LowBits;
    ExpandedAt([97], 0);
    assert HrpExpand([97]) == [3, 0, 1];
    assert Zeros(6) == [0, 0, 0, 0, 0, 0];
  }

  lemma PublishedSum()
    ensures Cut(Xor(Value(REGISTER9, 5), 1), 6, 5) == [10, 28, 25, 31, 20, 31]
  {
    hide Cut, Xor, Value, Added, Sums;
    Powers();
    var one: seq<nat> := [0, 0, 0, 0, 0, 1];
    var sum: seq<nat> := [10, 28, 25, 31, 20, 31];
    assert Sums(REGISTER9, one, sum) by { LastTurned(); }
    Adds(REGISTER9, one, sum);
    ValueOfSum(REGISTER9, one);
    ValueOfSix(0, 0, 0, 0, 0, 1);
    ValueRoundTrip(sum, 5);
  }

  lemma LastTurned()
    ensures Sums(REGISTER9, [0, 0, 0, 0, 0, 1], [10, 28, 25, 31, 20, 31])
  {
    hide Sum5, Xor;
    WithZero(10);
    WithZero(28);
    WithZero(25);
    WithZero(31);
    WithZero(20);
    WithOne();
  }

  lemma WithZero(a: nat)
    requires a < 32
    ensures Sum5(a, 0) == a
  {
    hide Sum5, Xor;
    SumIsXor(a, 0);
    XorZero(a);
  }

  lemma WithOne()
    ensures Sum5(30, 1) == 31
  {
  }

  lemma PublishedLetters()
    ensures Symbols([10, 28, 25, 31, 20, 31]) && Letters([10, 28, 25, 31, 20, 31]) == "2uel5l"
  {
  }

  /** The header of a CBOR byte string, as far as the page knows it: lengths stored in the initial byte or in
      the 1, 2 or 4 bytes after it. Anything else is taken as a bare payload. */
  function DropHeader(bytes: seq<Byte>): seq<Byte> {
    if bytes == [] then bytes
    else
      var n := if bytes[0] == 0x58 then 2 else if bytes[0] == 0x59 then 3 else if bytes[0] == 0x5a then 5
               else if 0x40 <= bytes[0] <= 0x57 then 1 else 0;
      if n <= |bytes| then bytes[n..] else []
  }

  function Payload(bytes: seq<Byte>): (p: seq<nat>)
    ensures |p| == |bytes| && AreDigits(p, 8)
  {
    assert Pow2(8) == 256;
    seq(|bytes|, i requires 0 <= i < |bytes| => bytes[i] as nat)
  }

  function AddressText(payload: seq<Byte>): string {
    SymbolsAreDigits(Regroup(Payload(payload), 8, 5));
    Bech32Text("addr", Regroup(Payload(payload), 8, 5))
  }

  /** The text shown for an address in the wallet's hexadecimal. */
  function TextOfHex(hex: string): Option<string> {
    match CardanoTx.FromHex(hex)
    case None => None
    case Some(b) => Some(AddressText(DropHeader(b)))
  }

  method CardanoAddrFromCborHex(hex: string) returns (r: Option<string>)
    ensures r == TextOfHex(hex)
  {
    var b := CardanoTx.HexToBytes(hex);
    if b == None { return None; }
    var bytes := DropHeader(b.value);
    var data: seq<int> := Payload(bytes);
    assert forall i :: 0 <= i < |data| ==> data[i] == Payload(bytes)[i];
    var data5 := ConvertBits(data, 8, 5, true);
    assert seq(|data|, i requires 0 <= i < |data| => if data[i] < 0 then 0 else data[i]) == Payload(bytes);
    SymbolsAreDigits(data5.value);
    var text := Bech32Encode("addr", data5.value);
    return Some(text);
  }

  // ---------- addresses stay distinct ----------

  /** The preferred byte-string header of section 4.1 of RFC 8949 is undone, for every length below 2^32. */
  lemma HeaderDropped(payload: seq<Byte>)
    requires |payload| < 0x1_0000_0000
    ensures DropHeader(Encode(String(false, Shortest(|payload|), payload))) == payload
  {
    var w := Shortest(|payload|);
    var head := Head(2, w, |payload|);
    var bytes := head + payload;
    assert bytes[0] == 64 + Minor(w, |payload|);
    assert bytes[|head|..] == payload;
  }

  /** Anything that does not begin with such a header is kept as it is, and what is too short for its header is
      empty. */
  lemma BareIsKept(bytes: seq<Byte>)
    ensures bytes != [] && (bytes[0] < 0x40 || bytes[0] > 0x5a) ==> DropHeader(bytes) == bytes
    ensures bytes == [0x58] ==> DropHeader(bytes) == []
    ensures bytes != [] && bytes[0] == 0x59 && |bytes| < 3 ==> DropHeader(bytes) == []
    ensures bytes != [] && bytes[0] == 0x5a && |bytes| < 5 ==> DropHeader(bytes) == []
  {
  }

  lemma LettersInjective(a: seq<nat>, b: seq<nat>)
    requires Symbols(a) && Symbols(b) && Letters(a) == Letters(b)
    ensures a == b
  {
    hide Rank;
    assert |a| == |Letters(a)| == |Letters(b)| == |b|;
    forall i | 0 <= i < |a| ensures a[i] == b[i] {
      assert Letters(a)[i] == CHARSET[a[i]] && Letters(b)[i] == CHARSET[b[i]];
      RankOfLetter(a[i]);
      RankOfLetter(b[i]);
    }
  }

  /** The place of a letter in the charset. */
  function Rank(c: char): nat {
    match c
    case 'q' => 0 case 'p' => 1 case 'z' => 2 case 'r' => 3
    case 'y' => 4 case '9' => 5 case 'x' => 6 case '8' => 7
    case 'g' => 8 case 'f' => 9 case '2' => 10 case 't' => 11
    case 'v' => 12 case 'd' => 13 case 'w' => 14 case '0' => 15
    case 's' => 16 case '3' => 17 case 'j' => 18 case 'n' => 19
    case '5' => 20 case '4' => 21 case 'k' => 22 case 'h' => 23
    case 'c' => 24 case 'e' => 25 case '6' => 26 case 'm' => 27
    case 'u' => 28 case 'a' => 29 case '7' => 30 case 'l' => 31
    case _ => 32
  }

  lemma RankOfLetter(v: nat)
    requires v < 32
    ensures Rank(CHARSET[v]) == v
  {
  }

  /** What a reader of the text finds after the prefix and its separator. */
  function SymbolsOf(letters: string): (values: seq<nat>)
    ensures |values| == |letters|
  {
    seq(|letters|, i requires 0 <= i < |letters| => Rank(letters[i]))
  }

  lemma LettersRead(values: seq<nat>)
    requires Symbols(values)
    ensures SymbolsOf(Letters(values)) == values
  {
    hide Rank;
    forall i | 0 <= i < |values| ensures SymbolsOf(Letters(values))[i] == values[i] {
      RankOfLetter(values[i]);
    }
  }

  /** Read back, an address's text is the prefix "addr", a separator, symbols that hold the payload's bits with fewer
      than five zeros after them, and six more that leave 1 in the register. */
  lemma AddressVerifies(payload: seq<Byte>)
    ensures var text, n := AddressText(payload), Groups(|payload|, 8, 5);
            && |text| == 5 + n + 6 && text[..5] == "addr1" && 0 <= 5 * n - 8 * |payload| < 5
            && var values := SymbolsOf(text[5..]);
            && Symbols(values) && Run(1, HrpExpand(Codes("addr")) + values) == 1
            && Value(values[..n], 5) == ShiftLeft(Value(Payload(payload), 8), 5 * n - 8 * |payload|)
  {
    hide Regroup, Checksum, Run, Value, ShiftLeft, HrpExpand, Letters, SymbolsOf;
    var data := Regroup(Payload(payload), 8, 5);
    var sum := Checksum(Codes("addr"), data);
    SymbolsAreDigits(data);
    SymbolsAreDigits(sum);
    var values := data + sum;
    assert AddressText(payload) == "addr" + "1" + Letters(values);
    assert ("addr" + "1" + Letters(values))[5..] == Letters(values);
    LettersRead(values);
    RegroupValue(Payload(payload), 8, 5);
    PrefixInRange();
    ChecksumVerifies(Codes("addr"), data);
    assert HrpExpand(Codes("addr")) + values == HrpExpand(Codes("addr")) + data + sum;
    assert values[..|data|] == data;
  }

  lemma PrefixInRange()
    ensures InRange(Codes("addr"))
  {
    GeneratorRange(0);
    assert Pow2(10) == 1024;
    assert Pow2(20) == 0x10_0000;
    assert Pow2(30) == 0x4000_0000;
  }

  /** Two wallets whose address payloads differ are never shown the same Bech32 text. */
  lemma AddressesDistinct(p: seq<Byte>, q: seq<Byte>)
    ensures AddressText(p) == AddressText(q) ==> p == q
  {
    hide Regroup, Checksum;
    if AddressText(p) == AddressText(q) {
      var a, b := Regroup(Payload(p), 8, 5), Regroup(Payload(q), 8, 5);
      SymbolsAreDigits(a);
      SymbolsAreDigits(b);
      TextInjective("addr", a, b);
      RegroupInjective(Payload(p), Payload(q), 8, 5);
      forall i | 0 <= i < |p| ensures p[i] == q[i] {
        assert Payload(p)[i] == p[i] && Payload(q)[i] == q[i];
      }
    }
  }

  /** An address as the wallet hands it over: a byte string with the preferred header, in hexadecimal. */
  function WalletHex(payload: seq<Byte>): string
    requires |payload| < 0x1_0000_0000
  {
    CardanoTx.ToHex(Encode(String(false, Shortest(|payload|), payload)))
  }

  /** So from end to end: what two wallets hand over is shown as the same text only if the addresses are the same. */
  lemma WalletAddressesDistinct(p: seq<Byte>, q: seq<Byte>)
    requires |p| < 0x1_0000_0000 && |q| < 0x1_0000_0000
    ensures TextOfHex(WalletHex(p)) == Some(AddressText(p))
    ensures TextOfHex(WalletHex(p)) == TextOfHex(WalletHex(q)) <==> p == q
  {
    hide AddressText, DropHeader, Encode;
    CardanoTx.HexRoundTrip(Encode(String(false, Shortest(|p|), p)));
    CardanoTx.HexRoundTrip(Encode(String(false, Shortest(|q|), q)));
    HeaderDropped(p);
    HeaderDropped(q);
    AddressesDistinct(p, q);
  }

  lemma TextInjective(hrp: string, a: seq<nat>, b: seq<nat>)
    requires Symbols(a) && Symbols(b) && Bech32Text(hrp, a) == Bech32Text(hrp, b)
    ensures a == b
  {
    hide Checksum, Letters;
    var sumA, sumB := Checksum(Codes(hrp), a), Checksum(Codes(hrp), b);
    SymbolsAreDigits(sumA);
    SymbolsAreDigits(sumB);
    var n := |hrp + "1"|;
    assert Bech32Text(hrp, a)[n..] == Letters(a + sumA);
    assert Bech32Text(hrp, b)[n..] == Letters(b + sumB);
    LettersInjective(a + sumA, b + sumB);
    assert (a + sumA)[..|a|] == a && (b + sumB)[..|b|] == b;
  }
}
