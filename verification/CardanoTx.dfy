/** The transaction splicer of the web page: it puts a freshly signed witness set into the second place of an
    unsigned transaction array, and the hexadecimal texts it reads and writes. */
module CardanoTx {
  import opened Wrappers
  import opened Cbor
  import CborSkip

  // ---------- hexadecimal ----------

  function Digit(n: nat): (c: char)
    requires n < 16
  {
    "0123456789abcdef"[n]
  }

  function DigitValue(c: char): (r: Option<nat>)
    ensures r.Some? ==> r.value < 16
  {
    if '0' <= c <= '9' then Some((c - '0') as nat)
    else if 'a' <= c <= 'f' then Some((c - 'a') as nat + 10)
    else if 'A' <= c <= 'F' then Some((c - 'A') as nat + 10)
    else None
  }

  function ToHex(bytes: seq<Byte>): string {
    if bytes == [] then "" else [Digit(bytes[0] / 16), Digit(bytes[0] % 16)] + ToHex(bytes[1..])
  }

  /** One or two digits to a byte; a lone last digit is a byte of its own. */
  function PairValue(pair: string): (r: Option<Byte>)
    requires 1 <= |pair| <= 2
  {
    match DigitValue(pair[0])
    case None => None
    case Some(high) =>
      if |pair| == 1 then Some(high)
      else
        match DigitValue(pair[1])
        case None => None
        case Some(low) => Some(16 * high + low)
  }

  function FromHex(hex: string): Option<seq<Byte>> {
    if hex == "" then Some([])
    else
      var n := if |hex| == 1 then 1 else 2;
      match PairValue(hex[..n])
      case None => None
      case Some(b) =>
        match FromHex(hex[n..])
        case None => None
        case Some(rest) => Some([b] + rest)
  }

  method HexToBytes(hex: string) returns (r: Option<seq<Byte>>)
    ensures r == FromHex(hex)
  {
    var b: seq<Byte> := [];
    var i := 0;
    assert hex[0..] == hex;
    assert forall rest: seq<Byte> :: [] + rest == rest;
    while i < |hex|
      invariant i <= |hex|
      invariant FromHex(hex) == match FromHex(hex[i..]) case None => None case Some(rest) => Some(b + rest)
    {
      var n := if i + 1 == |hex| then 1 else 2;
      assert hex[i..][..n] == hex[i..i + n] && hex[i..][n..] == hex[i + n..];
      var v := PairValue(hex[i..i + n]);
      if v == None { return None; }
      assert forall rest: seq<Byte> :: b + ([v.value] + rest) == b + [v.value] + rest;
      b := b + [v.value];
      i := i + n;
    }
    assert b + [] == b;
    return Some(b);
  }

  method BytesToHex(bytes: seq<Byte>) returns (hex: string)
    ensures hex == ToHex(bytes)
  {
    hex := "";
    for i := 0 to |bytes|
      invariant hex + ToHex(bytes[i..]) == ToHex(bytes)
    {
      assert bytes[i..][1..] == bytes[i + 1..];
      hex := hex + [Digit(bytes[i] / 16), Digit(bytes[i] % 16)];
    }
  }

  lemma DigitRoundTrip(n: nat)
    requires n < 16
    ensures DigitValue(Digit(n)) == Some(n)
  {
    assert Digit(n) == if n < 10 then '0' + n as char else 'a' + (n - 10) as char;
  }

  lemma {:induction false} HexRoundTrip(bytes: seq<Byte>)
    ensures FromHex(ToHex(bytes)) == Some(bytes)
  {
    if bytes != [] {
      var b := bytes[0];
      var pair, rest := [Digit(b / 16), Digit(b % 16)], ToHex(bytes[1..]);
      DigitRoundTrip(b / 16);
      DigitRoundTrip(b % 16);
      HexRoundTrip(bytes[1..]);
      assert (pair + rest)[..2] == pair && (pair + rest)[2..] == rest;
      assert PairValue(pair) == Some(b);
      assert [b] + bytes[1..] == bytes;
    }
  }

  predicate IsHexDigit(c: char) {
    '0' <= c <= '9' || 'a' <= c <= 'f' || 'A' <= c <= 'F'
  }

  /** Letters of either case are read alike. */
  function UpperCase(hex: string): (upper: string)
    ensures |upper| == |hex|
  {
    seq(|hex|, i requires 0 <= i < |hex| => if 'a' <= hex[i] <= 'f' then 'A' + (hex[i] - 'a') else hex[i])
  }

  lemma DigitsAre(n: nat)
    requires n < 16
    ensures Digit(n) == if n < 10 then '0' + n as char else 'a' + (n - 10) as char
  {
  }

  /** What can be read, how many bytes it makes, and that the case of letters does not matter. */
  lemma {:induction false} HexIsRead(hex: string)
    ensures FromHex(hex).Some? <==> forall i :: 0 <= i < |hex| ==> IsHexDigit(hex[i])
    ensures FromHex(hex).Some? ==> |FromHex(hex).value| == (|hex| + 1) / 2
    ensures FromHex(UpperCase(hex)) == FromHex(hex)
    decreases |hex|
  {
    if hex != "" {
      var n := if |hex| == 1 then 1 else 2;
      HexIsRead(hex[n..]);
      assert UpperCase(hex)[n..] == UpperCase(hex[n..]);
      assert forall i :: n <= i < |hex| ==> hex[i] == hex[n..][i - n];
      assert forall i :: 0 <= i < n ==> hex[..n][i] == hex[i] && UpperCase(hex)[..n][i] == UpperCase(hex)[i];
      PairReads(hex[..n], UpperCase(hex)[..n]);
    }
  }

  lemma PairReads(pair: string, upper: string)
    requires 1 <= |pair| <= 2 && upper == UpperCase(pair)
    ensures PairValue(pair).Some? <==> forall i :: 0 <= i < |pair| ==> IsHexDigit(pair[i])
    ensures PairValue(upper) == PairValue(pair)
  {
    assert forall i :: 0 <= i < |pair| ==> DigitValue(upper[i]) == DigitValue(pair[i]);
    assert forall i :: 0 <= i < |pair| ==> (DigitValue(pair[i]).Some? <==> IsHexDigit(pair[i]));
  }

  /** A last digit that stands alone is a byte of its own. */
  lemma {:induction false} LoneDigit(bytes: seq<Byte>, n: nat)
    requires n < 16
    ensures FromHex(ToHex(bytes) + [Digit(n)]) == Some(bytes + [n])
    decreases |bytes|
  {
    hide FromHex, PairValue, Digit, DigitValue;
    var last := [Digit(n)];
    if bytes == [] {
      assert ToHex(bytes) + last == last;
      OneDigit(n);
      assert [n] == bytes + [n];
    } else {
      var b := bytes[0];
      var rest := ToHex(bytes[1..]) + last;
      LoneDigit(bytes[1..], n);
      TwoDigits(b, rest);
      assert ToHex(bytes) + last == [Digit(b / 16), Digit(b % 16)] + rest;
      assert [b] + (bytes[1..] + [n]) == bytes + [n];
    }
  }

  lemma OneDigit(n: nat)
    requires n < 16
    ensures FromHex([Digit(n)]) == Some([n])
  {
    hide Digit;
    DigitRoundTrip(n);
    var last := [Digit(n)];
    assert last[1..] == "" && last[..1] == last && [n] + [] == [n];
  }

  lemma TwoDigits(b: Byte, rest: string)
    ensures var hex := [Digit(b / 16), Digit(b % 16)] + rest;
            FromHex(hex) == if FromHex(rest).None? then None else Some([b] + FromHex(rest).value)
  {
    hide Digit;
    DigitRoundTrip(b / 16);
    DigitRoundTrip(b % 16);
    var pair := [Digit(b / 16), Digit(b % 16)];
    assert (pair + rest)[..2] == pair && (pair + rest)[2..] == rest;
  }

  // ---------- the splice ----------

  datatype SpliceError = EmptyTx | NotAnArray(major: nat) | NotHex | Truncated | OutOfRange

  function Splice(tx: seq<Byte>, ws: seq<Byte>): Result<seq<Byte>, SpliceError> {
    if tx == [] then Err(EmptyTx)
    else if tx[0] / 32 != 4 then Err(NotAnArray(tx[0] / 32))
    else
      match CborSkip.Skip(tx, 1)
      case None => Err(Truncated)
      case Some(wsStart) =>
        match CborSkip.Skip(tx, wsStart)
        case None => Err(Truncated)
        case Some(wsEnd) =>
          if wsEnd > |tx| then Err(OutOfRange) else Ok(tx[..wsStart] + ws + tx[wsEnd..])
  }

  method CopyInto(out: array<Byte>, from: seq<Byte>, at: nat)
    requires at + |from| <= out.Length
    modifies out
    ensures out[..] == old(out[..at]) + from + old(out[at + |from|..])
  {
    for i := 0 to |from|
      invariant out[at..at + i] == from[..i]
      invariant out[..at] == old(out[..at])
      invariant out[at + i..] == old(out[at + i..])
    {
      out[at + i] := from[i];
    }
    assert out[..] == out[..at] + out[at..at + |from|] + out[at + |from|..];
  }

  method CombineCardanoTx(unsignedHex: string, witnessSetHex: string) returns (r: Result<string, SpliceError>)
    ensures match (FromHex(unsignedHex), FromHex(witnessSetHex))
            case (Some(tx), Some(ws)) =>
              (match Splice(tx, ws) case Ok(out) => r == Ok(ToHex(out)) case Err(e) => r == Err(e))
            case _ => r == Err(NotHex)
  {
    var tx' := HexToBytes(unsignedHex);
    var ws' := HexToBytes(witnessSetHex);
    if tx' == None || ws' == None { return Err(NotHex); }
    var tx, ws := tx'.value, ws'.value;
    if |tx| == 0 { return Err(EmptyTx); }
    var major := tx[0] / 32;
    if major != 4 { return Err(NotAnArray(major)); }
    var start' := CborSkip.CborSkip(tx, 1);
    if start' == None { return Err(Truncated); }
    var wsStart := start'.value;
    var end' := CborSkip.CborSkip(tx, wsStart);
    if end' == None { return Err(Truncated); }
    var wsEnd := end'.value;
    if wsEnd > |tx| { return Err(OutOfRange); }
    var out := new Byte[|tx| - (wsEnd - wsStart) + |ws|];
    CopyInto(out, tx[..wsStart], 0);
    assert out[..wsStart] == tx[..wsStart];
    CopyInto(out, ws, wsStart);
    assert out[..wsStart + |ws|] == tx[..wsStart] + ws;
    CopyInto(out, tx[wsEnd..], wsStart + |ws|);
    assert out[..] == tx[..wsStart] + ws + tx[wsEnd..];
    var hex := BytesToHex(out[..]);
    return Ok(hex);
  }

  // ---------- what the splice means ----------

  /** The major types of section 3.1 of RFC 8949. */
  function MajorOf(i: Item): nat {
    match i
    case Number(negative, _, _) => if negative then 1 else 0
    case String(text, _, _) => if text then 3 else 2
    case OpenString(text, _) => if text then 3 else 2
    case Array(_, _) => 4
    case OpenArray(_) => 4
    case Map(_, _) => 5
    case OpenMap(_) => 5
    case Tag(_, _, _) => 6
    case Simple(_, _) => 7
  }

  /** Every item that is not an array is refused, and its major type named; so is no input at all. */
  lemma OnlyArraysAreSpliced(i: Item, after: seq<Byte>, ws: seq<Byte>)
    requires WellFormed(i)
    ensures Splice([], ws) == Err(EmptyTx)
    ensures !i.Array? && !i.OpenArray? ==> Splice(Encode(i) + after, ws) == Err(NotAnArray(MajorOf(i)))
  {
    assert (Encode(i) + after)[0] == Encode(i)[0];
    assert !i.Array? && !i.OpenArray? ==> Encode(i)[0] / 32 == MajorOf(i);
  }

  /** With a one-byte array header, the splice replaces exactly the second element: header, body and every
      later element keep their bytes, whatever they are and whatever is put in. */
  lemma SpliceReplacesWitnessSet(body: Item, unsigned: Item, rest: seq<Item>, ws: seq<Byte>)
    requires |rest| < 22 && AllWellFormed([body, unsigned] + rest) && AllWellFormed(rest)
    requires WellFormed(body) && WellFormed(unsigned)
    ensures Splice(Encode(Array(InHead, [body, unsigned] + rest)), ws)
         == Ok(Head(4, InHead, 2 + |rest|) + Encode(body) + ws + EncodeAll(rest))
  {
    EncodeTwo(body, unsigned, rest);
    var head := Head(4, InHead, 2 + |rest|);
    assert head == [head[0]];
    SpliceParts(Encode(Array(InHead, [body, unsigned] + rest)), head[0], body, unsigned, EncodeAll(rest), ws);
  }

  lemma EncodeTwo(a: Item, b: Item, rest: seq<Item>)
    requires WellFormed(a) && WellFormed(b) && AllWellFormed(rest) && AllWellFormed([a, b] + rest)
    ensures EncodeAll([a, b] + rest) == Encode(a) + (Encode(b) + EncodeAll(rest))
  {
    assert ([a, b] + rest)[1..] == [b] + rest;
    assert ([b] + rest)[1..] == rest;
  }

  lemma SpliceParts(tx: seq<Byte>, head: Byte, body: Item, unsigned: Item, tail: seq<Byte>, ws: seq<Byte>)
    requires head / 32 == 4 && WellFormed(body) && WellFormed(unsigned)
    requires tx == [head] + (Encode(body) + (Encode(unsigned) + tail))
    ensures Splice(tx, ws) == Ok([head] + Encode(body) + ws + tail)
  {
    var a, b := Encode(body), Encode(unsigned);
    Parts([head], a, b, tail);
    SkipPart(tx, [head], body, b + tail);
    SkipPart(tx, [head] + a, unsigned, tail);
    SpliceAt(tx, ws, 1 + |a|, 1 + |a| + |b|);
  }

  lemma Parts(head: seq<Byte>, a: seq<Byte>, b: seq<Byte>, tail: seq<Byte>)
    ensures var tx := head + (a + (b + tail));
            && tx == (head + a) + (b + tail)
            && tx[..|head| + |a|] == head + a && tx[|head| + |a| + |b|..] == tail
  {
  }

  lemma SkipPart(tx: seq<Byte>, before: seq<Byte>, item: Item, after: seq<Byte>)
    requires WellFormed(item) && tx == before + (Encode(item) + after)
    ensures CborSkip.Skip(tx, |before|) == Some(|before| + |Encode(item)|)
  {
    forall k | 0 <= k < |Encode(item)| ensures tx[|before| + k] == Encode(item)[k] {}
    CborSkip.SkipItem(tx, |before|, item);
  }

  lemma SpliceAt(tx: seq<Byte>, ws: seq<Byte>, wsStart: nat, wsEnd: nat)
    requires tx != [] && tx[0] / 32 == 4 && wsEnd <= |tx|
    requires CborSkip.Skip(tx, 1) == Some(wsStart) && CborSkip.Skip(tx, wsStart) == Some(wsEnd)
    ensures Splice(tx, ws) == Ok(tx[..wsStart] + ws + tx[wsEnd..])
  {
  }

  /** Splicing in the encoding of an item is replacing the second element of the array by that item. */
  lemma SpliceIsUpdate(body: Item, unsigned: Item, rest: seq<Item>, ws: Item)
    requires |rest| < 22 && AllWellFormed([body, unsigned] + rest) && AllWellFormed(rest)
    requires WellFormed(body) && WellFormed(unsigned) && WellFormed(ws) && AllWellFormed([body, ws] + rest)
    ensures Splice(Encode(Array(InHead, [body, unsigned] + rest)), Encode(ws))
         == Ok(Encode(Array(InHead, [body, ws] + rest)))
  {
    SpliceReplacesWitnessSet(body, unsigned, rest, Encode(ws));
    EncodeTwo(body, ws, rest);
    Regroup(Head(4, InHead, 2 + |rest|), Encode(body), Encode(ws), EncodeAll(rest));
  }

  lemma Regroup(head: seq<Byte>, a: seq<Byte>, b: seq<Byte>, tail: seq<Byte>)
    ensures head + (a + (b + tail)) == head + a + b + tail
  {
  }

  /** The walk starts at byte 1. An array written with a two-byte header and fewer than 24 elements has its
      count there, which reads as an item of its own, so the element replaced is the first one: the body. */
  lemma WideHeaderReplacesBody(body: Item, rest: seq<Item>, ws: seq<Byte>)
    requires |rest| < 23 && WellFormed(body) && AllWellFormed(rest) && AllWellFormed([body] + rest)
    ensures Splice(Encode(Array(One, [body] + rest)), ws)
         == Ok([152] + [1 + |rest|] + ws + EncodeAll(rest))
  {
    var n, tail := 1 + |rest|, Encode(body) + EncodeAll(rest);
    CountByte(n);
    CountHeader(n);
    EncodeOne(body, rest);
    Concat([152], [n], tail);
    SpliceParts(Encode(Array(One, [body] + rest)), 152, Number(false, InHead, n), body, EncodeAll(rest), ws);
  }

  lemma CountByte(n: nat)
    requires n < 24
    ensures Encode(Number(false, InHead, n)) == [n]
  {
  }

  lemma CountHeader(n: nat)
    requires n < 24
    ensures Head(4, One, n) == [152] + [n]
  {
  }

  lemma EncodeOne(body: Item, rest: seq<Item>)
    requires |rest| < 23 && WellFormed(body) && AllWellFormed(rest) && AllWellFormed([body] + rest)
    ensures Encode(Array(One, [body] + rest)) == Head(4, One, 1 + |rest|) + (Encode(body) + EncodeAll(rest))
  {
    assert ([body] + rest)[1..] == rest;
  }

  lemma Concat(a: seq<Byte>, b: seq<Byte>, c: seq<Byte>)
    ensures a + b + c == a + (b + c)
  {
  }

  // ---------- exactly which headers it works for ----------

  /** An array of 2 to 23 elements, however it is written. */
  predicate IsTransaction(tx: Item) {
    (tx.Array? || tx.OpenArray?) && WellFormed(tx) && 2 <= |tx.items| <= 23
  }

  function Opening(tx: Item): seq<Byte>
    requires IsTransaction(tx)
  {
    if tx.OpenArray? then [159] else Head(4, tx.w, |tx.items|)
  }

  function Closing(tx: Item): seq<Byte>
    requires IsTransaction(tx)
  {
    if tx.OpenArray? then [BREAK] else []
  }

  lemma ElementsWellFormed(tx: Item)
    requires IsTransaction(tx)
    ensures WellFormed(tx.items[0]) && WellFormed(tx.items[1]) && AllWellFormed(tx.items[2..])
  {
    assert AllWellFormed(tx.items);
    TwoAndRest(tx.items);
  }

  lemma TwoAndRest(items: seq<Item>)
    requires AllWellFormed(items) && |items| >= 2
    ensures WellFormed(items[0]) && WellFormed(items[1]) && AllWellFormed(items[2..])
  {
    hide WellFormed;
    var rest := items[1..];
    assert AllWellFormed(rest);
    assert rest[0] == items[1] && rest[1..] == items[2..];
  }

  function Tail(tx: Item): seq<Byte>
    requires IsTransaction(tx)
  {
    ElementsWellFormed(tx);
    EncodeAll(tx.items[2..]) + Closing(tx)
  }

  /** The transaction with nothing but its second element replaced. */
  function Replaced(tx: Item, ws: seq<Byte>): seq<Byte>
    requires IsTransaction(tx)
  {
    ElementsWellFormed(tx);
    Opening(tx) + Encode(tx.items[0]) + ws + Tail(tx)
  }

  lemma EncodingParts(tx: Item)
    requires IsTransaction(tx)
    ensures WellFormed(tx.items[0]) && WellFormed(tx.items[1])
    ensures Encode(tx) == Opening(tx) + (Encode(tx.items[0]) + (Encode(tx.items[1]) + Tail(tx)))
  {
    ElementsWellFormed(tx);
    var a, b, rest := tx.items[0], tx.items[1], tx.items[2..];
    assert tx.items == [a, b] + rest;
    EncodeTwo(a, b, rest);
    EncodingOf(tx);
    Regrouped(Opening(tx), Encode(a), Encode(b), EncodeAll(rest), Closing(tx));
  }

  lemma EncodingOf(tx: Item)
    requires IsTransaction(tx)
    ensures AllWellFormed(tx.items) && Encode(tx) == Opening(tx) + EncodeAll(tx.items) + Closing(tx)
  {
  }

  lemma Regrouped(h: seq<Byte>, a: seq<Byte>, b: seq<Byte>, rest: seq<Byte>, end: seq<Byte>)
    ensures h + (a + (b + rest)) + end == h + (a + (b + (rest + end)))
  {
  }

  lemma {:induction false} ZeroBytes(k: nat)
    ensures forall i :: 0 <= i < k ==> BigEndian(0, k)[i] == 0
  {
    if k > 0 {
      ZeroBytes(k - 1);
    }
  }

  /** A small count written wider than one byte starts with a zero byte, and with two small bytes. */
  lemma WideCount(n: nat, k: nat)
    requires n < 24 && k >= 2
    ensures var s := BigEndian(n, k); s[0] == 0 && s[1] < 24 && s == [0] + ([s[1]] + s[2..])
  {
    assert BigEndian(n, k) == BigEndian(0, k - 1) + [n];
    ZeroBytes(k - 1);
  }

  /** Behind a wide header what is put in starts at the third byte, where the transaction has its own. */
  lemma WideHeaderFails(tx: Item, x: Byte)
    requires IsTransaction(tx) && tx.Array? && tx.w != InHead
    ensures var r := Splice(Encode(tx), [x]);
            && r.Ok? && |r.value| > 2 && r.value[2] == x
            && |Encode(tx)| > 2 && |Replaced(tx, [x])| > 2 && Replaced(tx, [x])[2] == Encode(tx)[2]
  {
    hide Encode, EncodeAll, WellFormed, AllWellFormed, Splice, Tail, Replaced, Opening;
    WideOpening(tx);
    ThirdByte(tx, [x]);
    EncodingParts(tx);
    var first, rest, head := tx.items[0], Encode(tx.items[1]) + Tail(tx), Opening(tx)[0];
    var s := Opening(tx)[1..];
    assert Opening(tx) == [head] + s;
    if |s| == 1 {
      CountIsItem(s[0]);
      Concat([head], [s[0]], Encode(first) + rest);
      assert s == [s[0]];
      SpliceParts(Encode(tx), head, Number(false, InHead, s[0]), first, rest, [x]);
      PutAtThree([head], [s[0]], x, rest);
    } else {
      CountIsItem(0);
      CountIsItem(s[1]);
      Wide(head, s, Encode(first) + rest);
      SpliceParts(Encode(tx), head, Number(false, InHead, 0), Number(false, InHead, s[1]),
                  s[2..] + (Encode(first) + rest), [x]);
      PutAtThree([head], [0], x, s[2..] + (Encode(first) + rest));
    }
  }

  lemma PutAtThree(a: seq<Byte>, b: seq<Byte>, x: Byte, rest: seq<Byte>)
    requires |a| == |b| == 1
    ensures |a + b + [x] + rest| > 2 && (a + b + [x] + rest)[2] == x
  {
  }

  /** A wide header: its count is a small item, or two of them. */
  lemma WideOpening(tx: Item)
    requires IsTransaction(tx) && tx.Array? && tx.w != InHead
    ensures var o := Opening(tx);
            && |o| >= 2 && o[0] / 32 == 4
            && (|o| == 2 ==> o[1] < 24)
            && (|o| > 2 ==> o[1..][1] < 24 && o[1..] == [0] + ([o[1..][1]] + o[1..][2..]))
  {
    hide WellFormed, AllWellFormed;
    var n, k := |tx.items|, Size(tx.w);
    assert Opening(tx)[1..] == BigEndian(n, k);
    if k == 1 {
      OneByte(n);
    } else {
      WideCount(n, k);
    }
  }

  /** The third byte belongs to the header or to the first element. */
  lemma ThirdByte(tx: Item, ws: seq<Byte>)
    requires IsTransaction(tx) && |Opening(tx)| >= 2
    ensures |Encode(tx)| > 2 && |Replaced(tx, ws)| > 2 && Replaced(tx, ws)[2] == Encode(tx)[2]
  {
    EncodingParts(tx);
    hide Encode, EncodeAll, WellFormed, AllWellFormed, Tail, Opening;
    Starts(Opening(tx), Encode(tx.items[0]), Encode(tx.items[1]) + Tail(tx), ws, Tail(tx));
  }

  lemma Starts(o: seq<Byte>, a: seq<Byte>, rest: seq<Byte>, ws: seq<Byte>, tail: seq<Byte>)
    requires |o| >= 2 && |a| >= 1
    ensures |o + (a + rest)| > 2 && |o + a + ws + tail| > 2 && (o + a + ws + tail)[2] == (o + (a + rest))[2]
  {
  }

  lemma OneByte(n: nat)
    requires n < 24
    ensures BigEndian(n, 1) == [n]
  {
    assert BigEndian(n / 256, 0) == [];
  }

  lemma CountIsItem(n: nat)
    requires n < 24
    ensures WellFormed(Number(false, InHead, n)) && Encode(Number(false, InHead, n)) == [n]
  {
  }

  lemma Wide(head: Byte, s: seq<Byte>, rest: seq<Byte>)
    requires |s| >= 2 && s == [0] + ([s[1]] + s[2..])
    ensures [head] + s + rest == [head] + ([0] + ([s[1]] + (s[2..] + rest)))
  {
  }

  /** For every array of 2 to 23 elements, definite in any width or indefinite: the splice replaces exactly the second
      element, whatever is put in, if and only if the header is one byte. */
  lemma SpliceGuard(tx: Item)
    requires IsTransaction(tx)
    ensures (forall ws :: Splice(Encode(tx), ws) == Ok(Replaced(tx, ws)))
            <==> Encode(tx)[0] % 32 !in {24, 25, 26, 27}
  {
    EncodingParts(tx);
    HeaderByte(tx);
    hide Encode, WellFormed, Splice, Replaced;
    if tx.OpenArray? || tx.w == InHead {
      forall ws
        ensures Splice(Encode(tx), ws) == Ok(Replaced(tx, ws))
      {
        OneByteHeaderWorks(tx, ws);
      }
    } else {
      var x: Byte := if Encode(tx)[2] == 0 then 1 else 0;
      WideHeaderFails(tx, x);
      assert Splice(Encode(tx), [x]) != Ok(Replaced(tx, [x]));
    }
  }

  lemma HeaderByte(tx: Item)
    requires IsTransaction(tx)
    ensures Encode(tx)[0] == Opening(tx)[0] && Opening(tx)[0] / 32 == 4
    ensures Opening(tx)[0] % 32 in {24, 25, 26, 27} <==> tx.Array? && tx.w != InHead
    ensures tx.OpenArray? || tx.w == InHead ==> Opening(tx) == [Opening(tx)[0]]
  {
    EncodingParts(tx);
  }

  lemma OneByteHeaderWorks(tx: Item, ws: seq<Byte>)
    requires IsTransaction(tx) && (tx.OpenArray? || tx.w == InHead)
    ensures Splice(Encode(tx), ws) == Ok(Replaced(tx, ws))
  {
    EncodingParts(tx);
    HeaderByte(tx);
    hide Encode, WellFormed, Splice;
    SpliceParts(Encode(tx), Opening(tx)[0], tx.items[0], tx.items[1], Tail(tx), ws);
  }
}
