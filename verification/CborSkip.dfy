/** The hand-written CBOR walker of the web page. It never decodes an item: it only finds where the item ends,
    so that the witness set of an unsigned transaction can be replaced without touching any other byte. */
module CborSkip {
  import opened Wrappers
  import opened Cbor

  // ---------- what the walker computes ----------

  /** The argument after an initial byte with low bits `minor`, and the position after it. A read past the
      end gives None. Low bits 28 to 30 are reserved by the standard; the walker takes them as length 0. */
  function Argument(bytes: seq<Byte>, pos: nat, minor: nat): (r: Option<(nat, nat)>)
    ensures r.Some? ==> pos <= r.value.1
  {
    var k := if minor == 24 then 1 else if minor == 25 then 2 else if minor == 26 then 4
             else 8;
    if minor < 24 then Some((minor, pos))
    else if minor > 27 then Some((0, pos))
    else if pos + k > |bytes| then None
    else Some((FromBigEndian(bytes[pos..pos + k]), pos + k))
  }

  function Left(bytes: seq<Byte>, pos: nat): nat {
    if pos < |bytes| then |bytes| - pos else 0
  }

  function Skip(bytes: seq<Byte>, pos: nat): (r: Option<nat>)
    ensures r.Some? ==> pos < r.value && pos < |bytes|
    decreases Left(bytes, pos), 0, 0
  {
    if pos >= |bytes| then None
    else if bytes[pos] % 32 == 31 then SkipToBreak(bytes, pos + 1)
    else
      match Argument(bytes, pos + 1, bytes[pos] % 32)
      case None => None
      case Some((length, p)) =>
        var major := bytes[pos] / 32;
        if major == 2 || major == 3 then Some(p + length)
        else if major == 4 then SkipMany(bytes, p, length)
        else if major == 5 then SkipMany(bytes, p, 2 * length)
        else if major == 6 then Skip(bytes, p)
        else Some(p)
  }

  function SkipMany(bytes: seq<Byte>, pos: nat, count: nat): (r: Option<nat>)
    ensures r.Some? ==> pos <= r.value
    decreases Left(bytes, pos), 1, count
  {
    if count == 0 then Some(pos)
    else
      match Skip(bytes, pos)
      case None => None
      case Some(p) => SkipMany(bytes, p, count - 1)
  }

  function SkipToBreak(bytes: seq<Byte>, pos: nat): (r: Option<nat>)
    ensures r.Some? ==> pos < r.value
    decreases Left(bytes, pos), 1, 0
  {
    if pos >= |bytes| then None
    else if bytes[pos] == BREAK then Some(pos + 1)
    else
      match Skip(bytes, pos)
      case None => None
      case Some(p) => SkipToBreak(bytes, p)
  }

  // ---------- the walker ----------

  method ReadArgument(bytes: seq<Byte>, start: nat, minor: nat) returns (r: Option<(nat, nat)>)
    ensures r == Argument(bytes, start, minor)
  {
    var pos, length := start, 0;
    if minor < 24 {
      length := minor;
    } else if minor == 24 {
      if pos + 1 > |bytes| { return None; }
      length := bytes[pos];
      NextByte(bytes, pos, 0);
      pos := pos + 1;
    } else if minor == 25 {
      if pos + 2 > |bytes| { return None; }
      length := 0x100 * (bytes[pos] as int) + bytes[pos + 1];
      TwoBytes(bytes, pos);
      pos := pos + 2;
    } else if minor == 26 {
      if pos + 4 > |bytes| { return None; }
      length := 0x100_0000 * (bytes[pos] as int)
                + (0x1_0000 * (bytes[pos + 1] as int) + 0x100 * (bytes[pos + 2] as int) + bytes[pos + 3]);
      FourBytes(bytes, pos);
      pos := pos + 4;
    } else if minor == 27 {
      if pos + 8 > |bytes| { return None; }
      var n: int := 0;
      for i := 0 to 8
        invariant n == FromBigEndian(bytes[pos..pos + i])
      {
        NextByte(bytes, pos, i);
        n := n * 256 + bytes[pos + i] as int;
      }
      length := n;
      pos := pos + 8;
    }
    return Some((length, pos));
  }

  method CborSkip(bytes: seq<Byte>, start: nat) returns (r: Option<nat>)
    ensures r == Skip(bytes, start)
    decreases Left(bytes, start), 0
  {
    if start >= |bytes| { return None; }
    var major, minor := bytes[start] / 32, bytes[start] % 32;
    var pos := start + 1;
    if minor == 31 {
      while true
        invariant start < pos
        invariant SkipToBreak(bytes, pos) == Skip(bytes, start)
        decreases Left(bytes, pos)
      {
        if pos >= |bytes| { return None; }
        if bytes[pos] == BREAK { break; }
        var next := CborSkip(bytes, pos);
        if next == None { return None; }
        pos := next.value;
      }
      return Some(pos + 1);
    }
    var argument := ReadArgument(bytes, pos, minor);
    if argument == None { return None; }
    var length := argument.value.0;
    pos := argument.value.1;
    if major == 2 || major == 3 { return Some(pos + length); }
    if major == 4 || major == 5 {
      r := CborSkipMany(bytes, pos, if major == 4 then length else 2 * length);
      return;
    }
    if major == 6 {
      r := CborSkip(bytes, pos);
      return;
    }
    return Some(pos);
  }

  method CborSkipMany(bytes: seq<Byte>, start: nat, count: nat) returns (r: Option<nat>)
    ensures r == SkipMany(bytes, start, count)
    decreases Left(bytes, start), 1
  {
    var pos := start;
    for i := 0 to count
      invariant start <= pos
      invariant SkipMany(bytes, pos, count - i) == SkipMany(bytes, start, count)
    {
      var next := CborSkip(bytes, pos);
      if next == None { return None; }
      pos := next.value;
    }
    return Some(pos);
  }

  lemma NextByte(bytes: seq<Byte>, pos: nat, k: nat)
    requires pos + k < |bytes|
    ensures FromBigEndian(bytes[pos..pos + k + 1]) == 256 * FromBigEndian(bytes[pos..pos + k]) + bytes[pos + k]
    ensures FromBigEndian(bytes[pos..pos]) == 0
  {
    assert bytes[pos..pos] == [];
    assert bytes[pos..pos + k + 1][..k] == bytes[pos..pos + k];
  }

  lemma TwoBytes(bytes: seq<Byte>, pos: nat)
    requires pos + 2 <= |bytes|
    ensures FromBigEndian(bytes[pos..pos + 2]) == 0x100 * (bytes[pos] as int) + bytes[pos + 1]
  {
    NextByte(bytes, pos, 0);
    NextByte(bytes, pos, 1);
  }

  lemma FourBytes(bytes: seq<Byte>, pos: nat)
    requires pos + 4 <= |bytes|
    ensures FromBigEndian(bytes[pos..pos + 4])
         == 0x100_0000 * (bytes[pos] as int)
            + (0x1_0000 * (bytes[pos + 1] as int) + 0x100 * (bytes[pos + 2] as int) + bytes[pos + 3])
  {
    TwoBytes(bytes, pos);
    NextByte(bytes, pos, 2);
    NextByte(bytes, pos, 3);
  }

  // ---------- the walker against the grammar ----------

  /** `s` stands in `bytes` at position `pos`. */
  predicate At(bytes: seq<Byte>, pos: nat, s: seq<Byte>) {
    && pos + |s| <= |bytes|
    && forall k {:trigger s[k]} :: 0 <= k < |s| ==> bytes[pos + k] == s[k]
  }

  lemma AtSplit(bytes: seq<Byte>, pos: nat, a: seq<Byte>, b: seq<Byte>)
    requires At(bytes, pos, a + b)
    ensures At(bytes, pos, a) && At(bytes, pos + |a|, b)
  {
    forall k | 0 <= k < |a| ensures bytes[pos + k] == a[k] { assert (a + b)[k] == a[k]; }
    forall k | 0 <= k < |b| ensures bytes[pos + |a| + k] == b[k] { assert (a + b)[|a| + k] == b[k]; }
  }

  lemma AtSlice(bytes: seq<Byte>, pos: nat, s: seq<Byte>)
    requires pos + |s| <= |bytes|
    ensures At(bytes, pos, s) <==> bytes[pos..pos + |s|] == s
  {
    if bytes[pos..pos + |s|] == s {
      forall k | 0 <= k < |s| ensures bytes[pos + k] == s[k] { assert bytes[pos..pos + |s|][k] == s[k]; }
    }
  }

  lemma FirstByte(bytes: seq<Byte>, pos: nat, s: seq<Byte>)
    requires At(bytes, pos, s) && s != []
    ensures pos < |bytes| && bytes[pos] == s[0]
  {
    assert bytes[pos + 0] == s[0];
  }

  function Pow256(k: nat): (p: nat)
    ensures p > 0
  {
    if k == 0 then 1 else 256 * Pow256(k - 1)
  }

  lemma {:induction false} BigEndianRoundTrip(n: nat, k: nat)
    requires n < Pow256(k)
    ensures FromBigEndian(BigEndian(n, k)) == n
  {
    if k > 0 {
      assert n / 256 < Pow256(k - 1);
      BigEndianRoundTrip(n / 256, k - 1);
      var s := BigEndian(n, k);
      assert s[..|s| - 1] == BigEndian(n / 256, k - 1);
    }
  }

  lemma FitsPow(w: Width, n: nat)
    requires Fits(w, n) && w != InHead
    ensures n < Pow256(Size(w))
  {
    assert Pow256(1) == 0x100;
    assert Pow256(2) == 0x1_0000;
    assert Pow256(3) == 0x100_0000;
    assert Pow256(4) == 0x1_0000_0000;
    assert Pow256(6) == 0x1_0000_0000_0000;
    assert Pow256(8) == 0x1_0000_0000_0000_0000;
  }

  /** The head of an item is read back as the argument it was written for. */
  lemma ReadHead(bytes: seq<Byte>, pos: nat, major: nat, w: Width, n: nat)
    requires major < 8 && Fits(w, n) && At(bytes, pos, Head(major, w, n))
    ensures pos < |bytes| && bytes[pos] / 32 == major && bytes[pos] % 32 == Minor(w, n)
    ensures Argument(bytes, pos + 1, Minor(w, n)) == Some((n, pos + |Head(major, w, n)|))
  {
    AtSplit(bytes, pos, [32 * major + Minor(w, n)], BigEndian(n, Size(w)));
    FirstByte(bytes, pos, Head(major, w, n));
    if w != InHead {
      AtSlice(bytes, pos + 1, BigEndian(n, Size(w)));
      FitsPow(w, n);
      BigEndianRoundTrip(n, Size(w));
    }
  }

  /** For every well-formed item, whatever stands before and after it, the walker returns the position right
      after the item. */
  lemma {:induction false} SkipItem(bytes: seq<Byte>, pos: nat, item: Item)
    requires WellFormed(item) && At(bytes, pos, Encode(item))
    ensures Skip(bytes, pos) == Some(pos + |Encode(item)|)
    decreases item, 1, 0
  {
    match item {
      case Number(negative, w, n) => ReadHead(bytes, pos, if negative then 1 else 0, w, n);
      case Simple(w, n) => ReadHead(bytes, pos, 7, w, n);
      case String(text, w, data) => SkipString(bytes, pos, text, w, data);
      case OpenString(_, _) => SkipOpenString(bytes, pos, item);
      case Array(w, items) => SkipArray(bytes, pos, w, items);
      case Map(w, entries) => SkipMap(bytes, pos, w, entries);
      case OpenArray(_) => SkipOpened(bytes, pos, item);
      case OpenMap(_) => SkipOpened(bytes, pos, item);
      case Tag(_, _, _) => SkipTagged(bytes, pos, item);
    }
  }

  /** What RFC 8949 reserves is still walked: with low bits 28 to 30 an item is its first byte alone, and a tag
      is that byte and the item after it. */
  lemma {:induction false} ReservedIsEmpty(bytes: seq<Byte>, pos: nat)
    requires pos < |bytes| && 28 <= bytes[pos] % 32 < 31
    ensures Skip(bytes, pos) == if bytes[pos] / 32 == 6 then Skip(bytes, pos + 1) else Some(pos + 1)
  {
    assert SkipMany(bytes, pos + 1, 0) == Some(pos + 1);
    assert Argument(bytes, pos + 1, bytes[pos] % 32) == Some((0, pos + 1));
  }

  lemma {:induction false} SkipArray(bytes: seq<Byte>, pos: nat, w: Width, items: seq<Item>)
    requires Fits(w, |items|) && AllWellFormed(items)
    requires At(bytes, pos, Head(4, w, |items|) + EncodeAll(items))
    ensures Skip(bytes, pos) == Some(pos + 1 + Size(w) + |EncodeAll(items)|)
    decreases items, 1, 0
  {
    Counted(bytes, pos, false, w, |items|, EncodeAll(items));
    SkipItems(bytes, pos + 1 + Size(w), items);
  }

  lemma {:induction false} SkipMap(bytes: seq<Byte>, pos: nat, w: Width, entries: seq<Item>)
    requires |entries| % 2 == 0 && Fits(w, |entries| / 2) && AllWellFormed(entries)
    requires At(bytes, pos, Head(5, w, |entries| / 2) + EncodeAll(entries))
    ensures Skip(bytes, pos) == Some(pos + 1 + Size(w) + |EncodeAll(entries)|)
    decreases entries, 1, 0
  {
    Counted(bytes, pos, true, w, |entries| / 2, EncodeAll(entries));
    SkipItems(bytes, pos + 1 + Size(w), entries);
  }

  lemma {:induction false} SkipOpened(bytes: seq<Byte>, pos: nat, item: Item)
    requires item.OpenArray? || item.OpenMap?
    requires WellFormed(item) && At(bytes, pos, Encode(item))
    ensures Skip(bytes, pos) == Some(pos + |Encode(item)|)
    decreases item, 0, 0
  {
    if item.OpenArray? {
      Opened(bytes, pos, 159, EncodeAll(item.items));
      SkipOpenItems(bytes, pos + 1, item.items);
    } else {
      Opened(bytes, pos, 191, EncodeAll(item.entries));
      SkipOpenItems(bytes, pos + 1, item.entries);
    }
  }

  lemma {:induction false} SkipTagged(bytes: seq<Byte>, pos: nat, item: Item)
    requires item.Tag?
    requires WellFormed(item) && At(bytes, pos, Encode(item))
    ensures Skip(bytes, pos) == Some(pos + |Encode(item)|)
    decreases item, 0, 0
  {
    AtSplit(bytes, pos, Head(6, item.w, item.n), Encode(item.content));
    ReadHead(bytes, pos, 6, item.w, item.n);
    SkipItem(bytes, pos + 1 + Size(item.w), item.content);
  }

  lemma SkipOpenString(bytes: seq<Byte>, pos: nat, item: Item)
    requires item.OpenString?
    requires WellFormed(item) && At(bytes, pos, Encode(item))
    ensures Skip(bytes, pos) == Some(pos + |Encode(item)|)
  {
    Opened(bytes, pos, if item.text then 127 else 95, EncodeOpenString(item.text, item.chunks));
    SkipChunks(bytes, pos + 1, item.text, item.chunks);
  }

  lemma SkipString(bytes: seq<Byte>, pos: nat, text: bool, w: Width, data: seq<Byte>)
    requires Fits(w, |data|)
    requires At(bytes, pos, Head(if text then 3 else 2, w, |data|) + data)
    ensures Skip(bytes, pos) == Some(pos + 1 + Size(w) + |data|)
  {
    AtSplit(bytes, pos, Head(if text then 3 else 2, w, |data|), data);
    ReadHead(bytes, pos, if text then 3 else 2, w, |data|);
  }

  /** A definite-length array or map: its head, then `n` items or `n` pairs of items. */
  lemma Counted(bytes: seq<Byte>, pos: nat, pairs: bool, w: Width, n: nat, content: seq<Byte>)
    requires Fits(w, n)
    requires At(bytes, pos, Head(if pairs then 5 else 4, w, n) + content)
    ensures Skip(bytes, pos) == SkipMany(bytes, pos + 1 + Size(w), if pairs then 2 * n else n)
    ensures At(bytes, pos + 1 + Size(w), content)
  {
    AtSplit(bytes, pos, Head(if pairs then 5 else 4, w, n), content);
    ReadHead(bytes, pos, if pairs then 5 else 4, w, n);
  }

  /** An indefinite-length item: its initial byte, its content, and the break. */
  lemma Opened(bytes: seq<Byte>, pos: nat, initial: Byte, content: seq<Byte>)
    requires initial % 32 == 31
    requires At(bytes, pos, [initial] + content + [BREAK])
    ensures Skip(bytes, pos) == SkipToBreak(bytes, pos + 1)
    ensures At(bytes, pos + 1, content) && At(bytes, pos + 1 + |content|, [BREAK])
  {
    AtSplit(bytes, pos, [initial] + content, [BREAK]);
    AtSplit(bytes, pos, [initial], content);
    FirstByte(bytes, pos, [initial]);
  }

  lemma {:induction false} SkipItems(bytes: seq<Byte>, pos: nat, items: seq<Item>)
    requires AllWellFormed(items) && At(bytes, pos, EncodeAll(items))
    ensures SkipMany(bytes, pos, |items|) == Some(pos + |EncodeAll(items)|)
    decreases items, 0, |items|
  {
    if items != [] {
      AtSplit(bytes, pos, Encode(items[0]), EncodeAll(items[1..]));
      SkipItem(bytes, pos, items[0]);
      SkipItems(bytes, pos + |Encode(items[0])|, items[1..]);
    }
  }

  lemma {:induction false} SkipOpenItems(bytes: seq<Byte>, pos: nat, items: seq<Item>)
    requires AllWellFormed(items) && At(bytes, pos, EncodeAll(items))
    requires At(bytes, pos + |EncodeAll(items)|, [BREAK])
    ensures SkipToBreak(bytes, pos) == Some(pos + |EncodeAll(items)| + 1)
    decreases items, 0, |items|
  {
    if items == [] {
      FirstByte(bytes, pos, [BREAK]);
    } else {
      AtSplit(bytes, pos, Encode(items[0]), EncodeAll(items[1..]));
      SkipItem(bytes, pos, items[0]);
      FirstByte(bytes, pos, Encode(items[0]));
      SkipOpenItems(bytes, pos + |Encode(items[0])|, items[1..]);
    }
  }

  lemma {:induction false} SkipChunks(bytes: seq<Byte>, pos: nat, text: bool, chunks: seq<Chunk>)
    requires WellFormedChunks(chunks) && At(bytes, pos, EncodeOpenString(text, chunks))
    requires At(bytes, pos + |EncodeOpenString(text, chunks)|, [BREAK])
    ensures SkipToBreak(bytes, pos) == Some(pos + |EncodeOpenString(text, chunks)| + 1)
    decreases |chunks|
  {
    if chunks == [] {
      FirstByte(bytes, pos, [BREAK]);
    } else {
      var c, rest := chunks[0], EncodeOpenString(text, chunks[1..]);
      var chunk := Head(if text then 3 else 2, c.w, |c.data|) + c.data;
      NextChunk(bytes, pos, text, c, rest);
      SkipChunks(bytes, pos + |chunk|, text, chunks[1..]);
    }
  }

  lemma NextChunk(bytes: seq<Byte>, pos: nat, text: bool, c: Chunk, rest: seq<Byte>)
    requires Fits(c.w, |c.data|)
    requires At(bytes, pos, Head(if text then 3 else 2, c.w, |c.data|) + c.data + rest)
    ensures SkipToBreak(bytes, pos) == SkipToBreak(bytes, pos + 1 + Size(c.w) + |c.data|)
    ensures At(bytes, pos + 1 + Size(c.w) + |c.data|, rest)
  {
    var chunk := Head(if text then 3 else 2, c.w, |c.data|) + c.data;
    AtSplit(bytes, pos, chunk, rest);
    SkipString(bytes, pos, text, c.w, c.data);
    FirstByte(bytes, pos, chunk);
  }

  /** No encoding is a proper prefix of another, so a stream of items splits in only one way. */
  lemma EncodingIsPrefixFree(a: Item, b: Item, restA: seq<Byte>, restB: seq<Byte>)
    requires WellFormed(a) && WellFormed(b)
    requires Encode(a) + restA == Encode(b) + restB
    ensures Encode(a) == Encode(b) && restA == restB
  {
    var bytes := Encode(a) + restA;
    AtSplit(bytes, 0, Encode(a), restA);
    AtSplit(bytes, 0, Encode(b), restB);
    SkipItem(bytes, 0, a);
    SkipItem(bytes, 0, b);
    assert bytes[|Encode(a)|..] == restA && bytes[|Encode(b)|..] == restB;
    assert bytes[..|Encode(a)|] == Encode(a) && bytes[..|Encode(b)|] == Encode(b);
  }
}
