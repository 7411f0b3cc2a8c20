/** CBOR data items as section 3 of RFC 8949 builds them: the abstract items, the rules that make one
    well formed, and the bytes it is written as. Every width an argument may be written in is kept, not
    only the preferred one, and the indefinite-length forms of section 3.2 are items of their own. */
module Cbor {
  type Byte = x: int | 0 <= x < 256

  /** Where an argument is stored: in the initial byte, or in the 1, 2, 4 or 8 bytes after it. */
  datatype Width = InHead | One | Two | Four | Eight

  datatype Chunk = Chunk(w: Width, data: seq<Byte>)

  datatype Item =
    | Number(negative: bool, w: Width, n: nat)
    | Simple(w: Width, n: nat)                          // simple values and floats
    | String(text: bool, w: Width, data: seq<Byte>)
    | OpenString(text: bool, chunks: seq<Chunk>)        // indefinite length
    | Array(w: Width, items: seq<Item>)
    | OpenArray(items: seq<Item>)
    | Map(w: Width, entries: seq<Item>)                 // keys and values, alternating
    | OpenMap(entries: seq<Item>)
    | Tag(w: Width, n: nat, content: Item)

  const BREAK: Byte := 255

  function Size(w: Width): (k: nat)
    ensures k <= 8
  {
    match w
    case InHead => 0
    case One => 1
    case Two => 2
    case Four => 4
    case Eight => 8
  }

  predicate Fits(w: Width, n: nat) {
    match w
    case InHead => n < 24
    case One => n < 0x100
    case Two => n < 0x1_0000
    case Four => n < 0x1_0000_0000
    case Eight => n < 0x1_0000_0000_0000_0000
  }

  function Minor(w: Width, n: nat): (m: nat)
    requires Fits(w, n)
    ensures m < 28
  {
    match w
    case InHead => n
    case One => 24
    case Two => 25
    case Four => 26
    case Eight => 27
  }

  /** The preferred width of section 4.1: the shortest one. */
  function Shortest(n: nat): (w: Width)
    requires n < 0x1_0000_0000_0000_0000
    ensures Fits(w, n)
  {
    if n < 24 then InHead
    else if n < 0x100 then One
    else if n < 0x1_0000 then Two
    else if n < 0x1_0000_0000 then Four
    else Eight
  }

  function BigEndian(n: nat, k: nat): (s: seq<Byte>)
    ensures |s| == k
  {
    if k == 0 then [] else BigEndian(n / 256, k - 1) + [n % 256]
  }

  function FromBigEndian(s: seq<Byte>): nat {
    if s == [] then 0 else 256 * FromBigEndian(s[..|s| - 1]) + s[|s| - 1]
  }

  function Head(major: nat, w: Width, n: nat): (s: seq<Byte>)
    requires major < 8 && Fits(w, n)
    ensures |s| == 1 + Size(w)
  {
    [32 * major + Minor(w, n)] + BigEndian(n, Size(w))
  }

  predicate WellFormedChunks(chunks: seq<Chunk>) {
    forall c <- chunks :: Fits(c.w, |c.data|)
  }

  predicate WellFormed(item: Item)
    decreases item, 1, 0
  {
    match item
    case Number(_, w, n) => Fits(w, n)
    case Simple(w, n) => Fits(w, n) && (w == One ==> n >= 32)
    case String(_, w, data) => Fits(w, |data|)
    case OpenString(_, chunks) => WellFormedChunks(chunks)
    case Array(w, items) => Fits(w, |items|) && AllWellFormed(items)
    case OpenArray(items) => AllWellFormed(items)
    case Map(w, entries) => |entries| % 2 == 0 && Fits(w, |entries| / 2) && AllWellFormed(entries)
    case OpenMap(entries) => |entries| % 2 == 0 && AllWellFormed(entries)
    case Tag(w, n, content) => Fits(w, n) && WellFormed(content)
  }

  predicate AllWellFormed(items: seq<Item>)
    decreases items, 0, |items|
  {
    items == [] || (WellFormed(items[0]) && AllWellFormed(items[1..]))
  }

  function Encode(item: Item): (s: seq<Byte>)
    requires WellFormed(item)
    ensures |s| > 0 && s[0] != BREAK
    decreases item, 1, 0
  {
    match item
    case Number(negative, w, n) => Head(if negative then 1 else 0, w, n)
    case Simple(w, n) => Head(7, w, n)
    case String(text, w, data) => Head(if text then 3 else 2, w, |data|) + data
    case OpenString(text, chunks) =>
      [if text then 127 else 95] + EncodeOpenString(text, chunks) + [BREAK]
    case Array(w, items) => Head(4, w, |items|) + EncodeAll(items)
    case OpenArray(items) => [159] + EncodeAll(items) + [BREAK]
    case Map(w, entries) => Head(5, w, |entries| / 2) + EncodeAll(entries)
    case OpenMap(entries) => [191] + EncodeAll(entries) + [BREAK]
    case Tag(w, n, content) => Head(6, w, n) + Encode(content)
  }

  function EncodeOpenString(text: bool, chunks: seq<Chunk>): seq<Byte>
    requires WellFormedChunks(chunks)
  {
    if chunks == [] then []
    else Head(if text then 3 else 2, chunks[0].w, |chunks[0].data|) + chunks[0].data
         + EncodeOpenString(text, chunks[1..])
  }

  function EncodeAll(items: seq<Item>): (s: seq<Byte>)
    requires AllWellFormed(items)
    decreases items, 0, |items|
  {
    if items == [] then [] else Encode(items[0]) + EncodeAll(items[1..])
  }
}
