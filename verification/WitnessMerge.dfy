/** Adding vkey witnesses to a transaction. A transaction and a witness set are CBOR items; whatever the merge does not
    decode it passes on as the item it is, so the bytes of the body, which the signatures are over, stay what they
    were. */
module WitnessMerge {
  import opened Cbor
  import opened Wrappers

  const VKEYS: nat := 0
  const TAG_LIMIT: nat := 0x1_0000_0000_0000_0000

  datatype Tx = Tx(body: Item, witnesses: Item, valid: bool, aux: Item)

  /** NilWitnessSet: the decoder made a nil map of a null witness set, and writing a slot of it panics. */
  datatype MergeError = BadTx | BadWitnessSet | BadFreshSet | BadVkeys | BadFreshVkeys | NilWitnessSet

  // ---------- reading items ----------

  /** The decoder looks through tags. */
  function Untagged(i: Item): Item {
    if i.Tag? then Untagged(i.content) else i
  }

  /** Null and undefined decode to the zero value of whatever is expected. */
  predicate IsNull(i: Item) {
    Untagged(i) == Simple(InHead, 22) || Untagged(i) == Simple(InHead, 23)
  }

  function ListOf(i: Item): Option<seq<Item>> {
    match Untagged(i)
    case Array(_, items) => Some(items)
    case OpenArray(items) => Some(items)
    case _ => if IsNull(i) then Some([]) else None
  }

  function BoolOf(i: Item): Option<bool> {
    match Untagged(i)
    case Simple(InHead, 20) => Some(false)
    case Simple(InHead, 21) => Some(true)
    case _ => if IsNull(i) then Some(false) else None
  }

  function SlotOf(i: Item): Option<nat> {
    match Untagged(i)
    case Number(false, _, n) => Some(n)
    case _ => None
  }

  /** The slots of a map's keys and values; of a repeated key the last value counts. */
  function SlotsIn(entries: seq<Item>): Option<map<nat, Item>>
    decreases |entries|
  {
    if |entries| < 2 then Some(map[])
    else
      var n := |entries|;
      var slot, before := SlotOf(entries[n - 2]), SlotsIn(entries[..n - 2]);
      if slot.None? || before.None? then None else Some(before.value[slot.value := entries[n - 1]])
  }

  function SlotsOf(i: Item): Option<map<nat, Item>> {
    match Untagged(i)
    case Map(_, entries) => SlotsIn(entries)
    case OpenMap(entries) => SlotsIn(entries)
    case _ => if IsNull(i) then Some(map[]) else None
  }

  function DecodeTx(i: Item): Option<Tx> {
    var parts := ListOf(i);
    if parts.None? || |parts.value| != 4 || BoolOf(parts.value[2]).None? then None
    else Some(Tx(parts.value[0], parts.value[1], BoolOf(parts.value[2]).value, parts.value[3]))
  }

  // ---------- writing items ----------

  function WidthFor(n: nat): Width {
    if n < TAG_LIMIT then Shortest(n) else Eight
  }

  function ListItem(items: seq<Item>): Item {
    Array(WidthFor(|items|), items)
  }

  /** A slice that was never given anything to hold is written as null. */
  function SliceItem(isNil: bool, items: seq<Item>): Item {
    if isNil && items == [] then Simple(InHead, 22) else ListItem(items)
  }

  lemma MaxExists(s: set<nat>)
    requires s != {}
    ensures exists k :: k in s && forall j :: j in s ==> j <= k
  {
    var k :| k in s;
    if s != {k} {
      var rest := s - {k};
      MaxExists(rest);
      var top :| top in rest && forall j :: j in rest ==> j <= top;
      var best := if k > top then k else top;
      assert forall j :: j in s ==> j == k || j in rest;
      assert best in s && forall j :: j in s ==> j <= best;
    }
  }

  function MaxSlot(s: set<nat>): (k: nat)
    requires s != {}
    ensures k in s && forall j :: j in s ==> j <= k
  {
    MaxExists(s);
    var k :| k in s && forall j :: j in s ==> j <= k;
    k
  }

  /** The keys and values of a map, keys ascending. */
  function Entries(m: map<nat, Item>): (es: seq<Item>)
    ensures |es| == 2 * |m|
    decreases |m|
  {
    if m == map[] then []
    else
      var k := MaxSlot(m.Keys);
      var rest := m - {k};
      assert m == rest[k := m[k]];
      Entries(rest) + [Number(false, WidthFor(k), k), m[k]]
  }

  function MapItem(m: map<nat, Item>): Item {
    Map(WidthFor(|m|), Entries(m))
  }

  function EncodeTx(tx: Tx): Item {
    Array(InHead, [tx.body, tx.witnesses, Simple(InHead, if tx.valid then 21 else 20), tx.aux])
  }

  /** Reading what was written. */
  lemma {:induction false} EntriesRead(m: map<nat, Item>)
    ensures SlotsIn(Entries(m)) == Some(m)
    decreases |m|
  {
    if m != map[] {
      var k := MaxSlot(m.Keys);
      var rest := m - {k};
      assert m == rest[k := m[k]];
      EntriesRead(rest);
      assert Entries(m)[..|Entries(m)| - 2] == Entries(rest);
    }
  }

  /** The keys written, each in its shortest form. */
  lemma {:induction false} KeyWritten(m: map<nat, Item>, i: nat)
    requires i < |m|
    ensures Entries(m)[2 * i].Number? && Entries(m)[2 * i].n in m
    ensures var n := Entries(m)[2 * i].n;
            Entries(m)[2 * i] == Number(false, if n < TAG_LIMIT then Shortest(n) else Eight, n)
    decreases |m|
  {
    var k := MaxSlot(m.Keys);
    var rest := m - {k};
    assert m == rest[k := m[k]];
    if i < |rest| {
      KeyWritten(rest, i);
      assert Entries(m)[2 * i] == Entries(rest)[2 * i];
    }
  }

  /** They are written in ascending order. */
  lemma {:induction false} KeysAscend(m: map<nat, Item>, i: nat, j: nat)
    requires i < j < |m|
    ensures Entries(m)[2 * i].Number? && Entries(m)[2 * j].Number? && Entries(m)[2 * i].n < Entries(m)[2 * j].n
    decreases |m|
  {
    KeyWritten(m, i);
    KeyWritten(m, j);
    var k := MaxSlot(m.Keys);
    var rest := m - {k};
    assert m == rest[k := m[k]];
    assert Entries(m)[2 * i] == Entries(rest)[2 * i];
    KeyWritten(rest, i);
    if j < |rest| {
      KeysAscend(rest, i, j);
      assert Entries(m)[2 * j] == Entries(rest)[2 * j];
    }
  }

  lemma SliceReads(isNil: bool, items: seq<Item>)
    ensures ListOf(SliceItem(isNil, items)) == Some(items)
    ensures IsNull(SliceItem(isNil, items)) <==> isNil && items == []
  {
  }

  lemma WrittenReads(tx: Tx, m: map<nat, Item>, isNil: bool, items: seq<Item>)
    ensures DecodeTx(EncodeTx(tx)) == Some(tx) && SlotsOf(MapItem(m)) == Some(m)
    ensures ListOf(SliceItem(isNil, items)) == Some(items)
  {
    EntriesRead(m);
    SliceReads(isNil, items);
  }

  // ---------- the merge ----------

  /** The vkey witnesses of a slot map; none if it has no such slot. */
  function VkeysIn(slots: map<nat, Item>): Option<seq<Item>> {
    if VKEYS in slots then ListOf(slots[VKEYS]) else Some([])
  }

  /** No list of vkey witnesses was decoded. */
  predicate NoVkeys(slots: map<nat, Item>) {
    VKEYS !in slots || IsNull(slots[VKEYS])
  }

  function Merged(existing: map<nat, Item>, added: map<nat, Item>): Result<map<nat, Item>, MergeError> {
    if VKEYS !in added then Ok(existing)
    else if VkeysIn(existing).None? then Err(BadVkeys)
    else if ListOf(added[VKEYS]).None? then Err(BadFreshVkeys)
    else
      var combined := VkeysIn(existing).value + ListOf(added[VKEYS]).value;
      Ok(existing[VKEYS := SliceItem(NoVkeys(existing), combined)])
  }

  function Merge(txItem: Item, freshItem: Item): Result<Item, MergeError> {
    var tx := DecodeTx(txItem);
    if tx.None? then Err(BadTx)
    else if SlotsOf(tx.value.witnesses).None? then Err(BadWitnessSet)
    else if SlotsOf(freshItem).None? then Err(BadFreshSet)
    else
      var slots := Merged(SlotsOf(tx.value.witnesses).value, SlotsOf(freshItem).value);
      if slots.Err? then Err(slots.error)
      else if VKEYS in SlotsOf(freshItem).value && IsNull(tx.value.witnesses) then Err(NilWitnessSet)
      else Ok(EncodeTx(tx.value.(witnesses := MapItem(slots.value))))
  }

  method MergeTxWitnesses(txItem: Item, freshItem: Item) returns (r: Result<Item, MergeError>)
    ensures r == Merge(txItem, freshItem)
  {
    hide Entries, SlotsIn;
    var decoded := DecodeTx(txItem);
    if decoded.None? { return Err(BadTx); }
    var tx := decoded.value;
    var slots := SlotsOf(tx.witnesses);
    if slots.None? { return Err(BadWitnessSet); }
    var existing := slots.value;
    var added := SlotsOf(freshItem);
    if added.None? { return Err(BadFreshSet); }
    if VKEYS in added.value {
      var existingList: seq<Item> := [];
      var isNil := true;
      if VKEYS in existing {
        var ex := ListOf(existing[VKEYS]);
        if ex.None? { return Err(BadVkeys); }
        existingList := ex.value;
        isNil := IsNull(existing[VKEYS]);
      }
      var newList := ListOf(added.value[VKEYS]);
      if newList.None? { return Err(BadFreshVkeys); }
      if IsNull(tx.witnesses) { return Err(NilWitnessSet); }
      existing := existing[VKEYS := SliceItem(isNil, existingList + newList.value)];
    }
    tx := tx.(witnesses := MapItem(existing));
    return Ok(EncodeTx(tx));
  }

  // ---------- what merging keeps ----------

  /** A merge changes the vkey slot and nothing else: there it appends the fresh witnesses. */
  lemma MergeKeeps(txItem: Item, freshItem: Item)
    ensures var r := Merge(txItem, freshItem);
            r.Ok? ==>
              var before, after, added := DecodeTx(txItem), DecodeTx(r.value), SlotsOf(freshItem);
              && before.Some? && after.Some? && added.Some?
              && after.value.body == before.value.body && after.value.aux == before.value.aux
              && after.value.valid == before.value.valid
              && var was, now := SlotsOf(before.value.witnesses), SlotsOf(after.value.witnesses);
              && was.Some? && now.Some?
              && now.value - {VKEYS} == was.value - {VKEYS}
              && (VKEYS !in added.value ==> now == was)
              && (VKEYS in added.value ==>
                    && VkeysIn(was.value).Some? && VkeysIn(added.value).Some?
                    && VkeysIn(now.value) == Some(VkeysIn(was.value).value + VkeysIn(added.value).value))
  {
    hide SlotsIn, Entries;
    var r := Merge(txItem, freshItem);
    if r.Ok? {
      var tx := DecodeTx(txItem).value;
      var slots := Merged(SlotsOf(tx.witnesses).value, SlotsOf(freshItem).value).value;
      var was, added := SlotsOf(tx.witnesses).value, SlotsOf(freshItem).value;
      WrittenReads(tx.(witnesses := MapItem(slots)), slots, false, []);
      hide MapItem, ListOf, DecodeTx, EncodeTx, SlotsOf, SliceItem, NoVkeys;
      if VKEYS in added {
        WrittenReads(tx, slots, NoVkeys(was), VkeysIn(was).value + ListOf(added[VKEYS]).value);
      }
    }
  }

  /** When a merge goes through: the transaction and both witness sets can be read, and where there are fresh vkeys, so
      can both lists, and the transaction's own witness set is not null. */
  lemma MergesExactly(txItem: Item, freshItem: Item)
    ensures Merge(txItem, freshItem).Ok? <==>
              && DecodeTx(txItem).Some? && SlotsOf(freshItem).Some? && SlotsOf(DecodeTx(txItem).value.witnesses).Some?
              && (0 in SlotsOf(freshItem).value ==>
                    && ListOf(SlotsOf(freshItem).value[0]).Some? && !IsNull(DecodeTx(txItem).value.witnesses)
                    && VkeysIn(SlotsOf(DecodeTx(txItem).value.witnesses).value).Some?)
  {
    hide DecodeTx, SlotsOf, ListOf, IsNull, EncodeTx, MapItem, SliceItem, NoVkeys;
  }

  /** And which error is given: the first that applies, as the parts are read one after another. */
  lemma MergeFailsWith(txItem: Item, freshItem: Item)
    ensures var r := Merge(txItem, freshItem);
            && (DecodeTx(txItem).None? <==> r == Err(BadTx))
            && (DecodeTx(txItem).Some? ==>
                  var was, added := SlotsOf(DecodeTx(txItem).value.witnesses), SlotsOf(freshItem);
                  && (was.None? <==> r == Err(BadWitnessSet))
                  && (was.Some? && added.None? <==> r == Err(BadFreshSet))
                  && (was.Some? && added.Some? && 0 in added.value ==>
                        && (VkeysIn(was.value).None? <==> r == Err(BadVkeys))
                        && (VkeysIn(was.value).Some? && ListOf(added.value[0]).None? <==> r == Err(BadFreshVkeys))
                        && (r == Err(NilWitnessSet) <==>
                              && VkeysIn(was.value).Some? && ListOf(added.value[0]).Some?
                              && IsNull(DecodeTx(txItem).value.witnesses))))
  {
    hide DecodeTx, SlotsOf, ListOf, IsNull, EncodeTx, MapItem, SliceItem, NoVkeys;
  }

  /** A vkey slot that ends up empty: null in bytes if there never was a list, and an empty array if there was. */
  lemma EmptySlot(isNil: bool)
    ensures WellFormed(SliceItem(isNil, [])) && Encode(SliceItem(isNil, [])) == if isNil then [0xf6] else [0x80]
  {
  }

  /** What can be read as a list: arrays, of either form of length, through any tags; and null, which has no
      elements. */
  lemma ListsAre(i: Item)
    ensures ListOf(i).Some? <==> Untagged(i).Array? || Untagged(i).OpenArray? || IsNull(i)
    ensures Untagged(i).Array? || Untagged(i).OpenArray? ==> ListOf(i) == Some(Untagged(i).items)
    ensures IsNull(i) ==> ListOf(i) == Some([])
  {
    hide Untagged;
  }

  /** Whatever is read, it is read through tags. */
  lemma TagsAreLookedThrough(w: Width, n: nat, i: Item)
    ensures ListOf(Tag(w, n, i)) == ListOf(i) && SlotsOf(Tag(w, n, i)) == SlotsOf(i)
    ensures BoolOf(Tag(w, n, i)) == BoolOf(i) && SlotOf(Tag(w, n, i)) == SlotOf(i)
    ensures DecodeTx(Tag(w, n, i)) == DecodeTx(i)
  {
    hide SlotsIn;
    assert Untagged(Tag(w, n, i)) == Untagged(i);
    hide Untagged;
  }

  /** What stands without a tag is read as a truth value, a slot number or slots exactly in these forms: null and
      undefined stand for false and for no slots. */
  lemma ReadAs(i: Item)
    requires !i.Tag?
    ensures var nothing := i == Simple(InHead, 22) || i == Simple(InHead, 23);
            && BoolOf(i) == (if i == Simple(InHead, 21) then Some(true)
                             else if i == Simple(InHead, 20) || nothing then Some(false) else None)
            && SlotOf(i) == (if i.Number? && !i.negative then Some(i.n) else None)
            && (nothing ==> SlotsOf(i) == Some(map[]) && ListOf(i) == Some([]))
            && (SlotsOf(i).Some? ==> nothing || i.Map? || i.OpenMap?)
            && (ListOf(i).Some? ==> nothing || i.Array? || i.OpenArray?)
  {
    hide SlotsIn;
    assert Untagged(i) == i;
    hide Untagged;
  }

  function KeyAt(entries: seq<Item>, k: nat): Item
    requires 2 * k + 1 < |entries|
  {
    entries[2 * k]
  }

  /** What can be read as slots: maps whose keys are all unsigned numbers. */
  lemma {:induction false} SlotsAre(entries: seq<Item>)
    requires |entries| % 2 == 0
    ensures SlotsIn(entries).Some? <==>
              forall k: nat :: 2 * k + 1 < |entries| ==>
                                 Untagged(KeyAt(entries, k)).Number? && !Untagged(KeyAt(entries, k)).negative
    decreases |entries|
  {
    hide Untagged;
    if |entries| >= 2 {
      var n := |entries|;
      var before := entries[..n - 2];
      SlotsAre(before);
      assert forall k: nat :: 2 * k + 1 < n - 2 ==> KeyAt(before, k) == KeyAt(entries, k);
      assert KeyAt(entries, n / 2 - 1) == entries[n - 2];
      if SlotOf(entries[n - 2]).Some? && SlotsIn(before).Some? {
        forall k: nat | 2 * k + 1 < n
          ensures Untagged(KeyAt(entries, k)).Number? && !Untagged(KeyAt(entries, k)).negative
        {
          assert k == n / 2 - 1 || KeyAt(before, k) == KeyAt(entries, k);
        }
      }
    }
  }

  /** A slot holds the last value under its key. */
  lemma {:induction false} SlotsHold(entries: seq<Item>, k: nat)
    requires |entries| % 2 == 0 && SlotsIn(entries).Some? && 2 * k + 1 < |entries|
    requires forall j: nat :: k < j && 2 * j + 1 < |entries| ==> SlotOf(KeyAt(entries, j)) != SlotOf(KeyAt(entries, k))
    ensures SlotOf(KeyAt(entries, k)).Some?
    ensures var slot := SlotOf(KeyAt(entries, k)).value;
            slot in SlotsIn(entries).value && SlotsIn(entries).value[slot] == entries[2 * k + 1]
    decreases |entries|
  {
    hide SlotOf;
    var n := |entries|;
    var before := entries[..n - 2];
    if 2 * k + 2 < n {
      assert forall j: nat :: 2 * j + 1 < n - 2 ==> KeyAt(before, j) == KeyAt(entries, j);
      SlotsHold(before, k);
      assert KeyAt(entries, n / 2 - 1) == entries[n - 2];
    }
  }

  /** Merging again and again. */
  function MergeAll(txItem: Item, sets: seq<Item>): Result<Item, MergeError>
    decreases |sets|
  {
    if sets == [] then Ok(txItem)
    else
      var r := Merge(txItem, sets[0]);
      if r.Err? then r else MergeAll(r.value, sets[1..])
  }

  /** The vkey witnesses of several sets, one after another. */
  function VkeysOf(sets: seq<Item>): seq<Item>
    decreases |sets|
  {
    if sets == [] then [] else VkeysOfOne(sets[0]) + VkeysOf(sets[1..])
  }

  function VkeysOfOne(set0: Item): seq<Item> {
    var slots := SlotsOf(set0);
    if slots.Some? && VkeysIn(slots.value).Some? then VkeysIn(slots.value).value else []
  }

  /** Two transactions that differ at most in their vkey witnesses, `more` of which come after the first's own. */
  predicate Differ(before: Item, after: Item, more: seq<Item>) {
    && DecodeTx(before).Some? && DecodeTx(after).Some?
    && var a, b := DecodeTx(before).value, DecodeTx(after).value;
    && a.body == b.body && a.valid == b.valid && a.aux == b.aux
    && SlotsOf(a.witnesses).Some? && SlotsOf(b.witnesses).Some?
    && var was, now := SlotsOf(a.witnesses).value, SlotsOf(b.witnesses).value;
    && now - {VKEYS} == was - {VKEYS}
    && ((more == [] && now == was)
        || (VkeysIn(was).Some? && VkeysIn(now) == Some(VkeysIn(was).value + more)))
  }

  lemma MergeDiffers(txItem: Item, freshItem: Item)
    ensures var r := Merge(txItem, freshItem);
            r.Ok? ==> Differ(txItem, r.value, VkeysOfOne(freshItem))
  {
    MergeKeeps(txItem, freshItem);
    hide Merge, MapItem, ListOf, DecodeTx, EncodeTx, SlotsOf;
  }

  lemma DifferTwice(a: Item, b: Item, c: Item, first: seq<Item>, second: seq<Item>)
    requires Differ(a, b, first) && Differ(b, c, second)
    ensures Differ(a, c, first + second)
  {
    hide ListOf, DecodeTx, SlotsOf;
    var was := SlotsOf(DecodeTx(a).value.witnesses).value;
    if VkeysIn(was).Some? {
      assert VkeysIn(was).value + first + second == VkeysIn(was).value + (first + second);
      assert VkeysIn(was).value + [] == VkeysIn(was).value;
    }
    assert first + [] == first && [] + second == second;
  }

  /** Any number of merges keeps the body, the validity flag, the auxiliary data and every slot but the vkeys, and
      appends all the fresh vkey witnesses in order. */
  lemma {:induction false} MergesKeep(txItem: Item, sets: seq<Item>)
    requires sets != []
    ensures MergeAll(txItem, sets).Ok? ==> Differ(txItem, MergeAll(txItem, sets).value, VkeysOf(sets))
    decreases |sets|
  {
    hide Merge, Differ, VkeysOfOne;
    MergeDiffers(txItem, sets[0]);
    var r := Merge(txItem, sets[0]);
    if r.Ok? {
      if |sets| > 1 {
        MergesKeep(r.value, sets[1..]);
        if MergeAll(txItem, sets).Ok? {
          DifferTwice(txItem, r.value, MergeAll(txItem, sets).value, VkeysOfOne(sets[0]), VkeysOf(sets[1..]));
        }
      } else {
        assert MergeAll(r.value, sets[1..]) == r;
        assert VkeysOf(sets) == VkeysOfOne(sets[0]) + [] == VkeysOfOne(sets[0]);
      }
    }
  }

  /** Merging two sets is merging one that holds the witnesses of both: the very same transaction comes out. */
  lemma TwiceIsOnce(txItem: Item, first: Item, second: Item, both: Item)
    requires SlotsOf(first).Some? && SlotsOf(second).Some? && SlotsOf(both).Some?
    requires VKEYS in SlotsOf(first).value && VKEYS in SlotsOf(second).value && VKEYS in SlotsOf(both).value
    requires VkeysIn(SlotsOf(first).value).Some? && VkeysIn(SlotsOf(second).value).Some?
    requires VkeysIn(SlotsOf(both).value)
             == Some(VkeysIn(SlotsOf(first).value).value + VkeysIn(SlotsOf(second).value).value)
    ensures MergeAll(txItem, [first, second]) == Merge(txItem, both)
  {
    hide SlotsIn, Entries, SlotsOf, ListOf, DecodeTx, EncodeTx, MapItem, IsNull, SliceItem, NoVkeys;
    var one := Merge(txItem, first);
    assert [first, second][1..] == [second] && [second][1..] == [];
    if one.Ok? {
      var tx := DecodeTx(txItem).value;
      var was := SlotsOf(tx.witnesses).value;
      var l0, l1 := VkeysIn(was).value, VkeysIn(SlotsOf(first).value).value;
      var l2 := VkeysIn(SlotsOf(second).value).value;
      var slots1 := was[VKEYS := SliceItem(NoVkeys(was), l0 + l1)];
      WrittenReads(tx.(witnesses := MapItem(slots1)), slots1, NoVkeys(was), l0 + l1);
      NotNull(slots1);
      AppendedTwice(was, slots1, l0, l1, l2);
      assert MergeAll(one.value, [second]) == Merge(one.value, second);
    }
  }

  lemma AppendedTwice(was: map<nat, Item>, now: map<nat, Item>, l0: seq<Item>, l1: seq<Item>, l2: seq<Item>)
    requires VkeysIn(was) == Some(l0) && now == was[VKEYS := SliceItem(NoVkeys(was), l0 + l1)]
    ensures now[VKEYS := SliceItem(NoVkeys(now), l0 + l1 + l2)] == was[VKEYS := SliceItem(NoVkeys(was), l0 + (l1 + l2))]
  {
    hide IsNull, ListItem, ListOf;
    SliceReads(NoVkeys(was), l0 + l1);
    assert l0 + l1 + l2 == l0 + (l1 + l2);
    if NoVkeys(was) {
      NullReads(was);
    }
  }

  lemma NullReads(slots: map<nat, Item>)
    requires NoVkeys(slots)
    ensures VkeysIn(slots) == Some([])
  {
  }

  lemma NotNull(m: map<nat, Item>)
    ensures !IsNull(MapItem(m))
  {
  }

  // ---------- the bytes ----------

  predicate SlotsWellFormed(m: map<nat, Item>) {
    forall k :: k in m ==> k < TAG_LIMIT && WellFormed(m[k])
  }

  lemma {:induction false} AllSplit(a: seq<Item>, b: seq<Item>)
    ensures AllWellFormed(a + b) <==> AllWellFormed(a) && AllWellFormed(b)
    decreases |a|
  {
    if a == [] {
      assert a + b == b;
    } else {
      AllSplit(a[1..], b);
      assert (a + b)[1..] == a[1..] + b;
    }
  }

  lemma {:induction false} SlotsInWellFormed(entries: seq<Item>)
    requires AllWellFormed(entries)
    ensures SlotsIn(entries).Some? ==> SlotsWellFormed(SlotsIn(entries).value)
    decreases |entries|
  {
    if |entries| >= 2 {
      var n := |entries|;
      AllSplit(entries[..n - 2], entries[n - 2..]);
      assert entries == entries[..n - 2] + entries[n - 2..];
      SlotsInWellFormed(entries[..n - 2]);
      assert AllWellFormed(entries[n - 2..][1..]);
      UntaggedWellFormed(entries[n - 2]);
    }
  }

  lemma {:induction false} UntaggedWellFormed(i: Item)
    requires WellFormed(i)
    ensures WellFormed(Untagged(i))
    decreases i
  {
    if i.Tag? {
      UntaggedWellFormed(i.content);
    }
  }

  lemma PartsWellFormed(i: Item)
    requires WellFormed(i)
    ensures ListOf(i).Some? ==> AllWellFormed(ListOf(i).value)
    ensures SlotsOf(i).Some? ==> SlotsWellFormed(SlotsOf(i).value)
  {
    UntaggedWellFormed(i);
    match Untagged(i)
    case Map(_, entries) => SlotsInWellFormed(entries);
    case OpenMap(entries) => SlotsInWellFormed(entries);
    case _ =>
  }

  lemma {:induction false} EntriesWellFormed(m: map<nat, Item>)
    requires SlotsWellFormed(m)
    ensures AllWellFormed(Entries(m))
    decreases |m|
  {
    if m != map[] {
      var k := MaxSlot(m.Keys);
      EntriesWellFormed(m - {k});
      var key := Number(false, WidthFor(k), k);
      PairWellFormed(key, m[k]);
      AllSplit(Entries(m - {k}), [key, m[k]]);
    }
  }

  lemma PairWellFormed(a: Item, b: Item)
    requires WellFormed(a) && WellFormed(b)
    ensures AllWellFormed([a, b]) && EncodeAll([a, b]) == Encode(a) + Encode(b)
  {
    hide WellFormed, Encode;
    assert [a, b][1..] == [b] && [b][1..] == [];
    assert AllWellFormed([b]) && EncodeAll([b]) == Encode(b) + [];
  }

  lemma FourWellFormed(a: Item, b: Item, c: Item, d: Item)
    requires WellFormed(a) && WellFormed(b) && WellFormed(c) && WellFormed(d)
    ensures AllWellFormed([a, b, c, d])
    ensures EncodeAll([a, b, c, d]) == Encode(a) + Encode(b) + Encode(c) + Encode(d)
  {
    hide WellFormed, Encode;
    PairWellFormed(c, d);
    assert [a, b, c, d][1..] == [b, c, d] && [b, c, d][1..] == [c, d];
    assert AllWellFormed([b, c, d]) && EncodeAll([b, c, d]) == Encode(b) + EncodeAll([c, d]);
  }

  lemma WrittenWellFormed(tx: Tx)
    requires WellFormed(tx.body) && WellFormed(tx.witnesses) && WellFormed(tx.aux)
    ensures WellFormed(EncodeTx(tx))
    ensures Encode(EncodeTx(tx))
            == [0x84] + (Encode(tx.body) + Encode(tx.witnesses) + [if tx.valid then 0xf5 else 0xf4] + Encode(tx.aux))
  {
    var flag := Simple(InHead, if tx.valid then 21 else 20);
    FlagByte(tx.valid);
    FourWellFormed(tx.body, tx.witnesses, flag, tx.aux);
    assert Head(4, InHead, 4) == [0x84];
  }

  lemma FlagByte(valid: bool)
    ensures var flag := Simple(InHead, if valid then 21 else 20);
            WellFormed(flag) && Encode(flag) == [if valid then 0xf5 else 0xf4]
  {
  }

  /** In bytes: the merged transaction is an array of four holding the body's own bytes, the new witness set, the flag,
      and the auxiliary data's own bytes. */
  lemma MergedBytes(txItem: Item, freshItem: Item)
    requires WellFormed(txItem) && WellFormed(freshItem)
    ensures var r := Merge(txItem, freshItem);
            r.Ok? && FewWitnesses(r.value) ==>
              var before, after := DecodeTx(txItem).value, DecodeTx(r.value).value;
              && WellFormed(r.value) && WellFormed(before.body) && WellFormed(before.aux) && WellFormed(after.witnesses)
              && Encode(r.value)
                 == [0x84] + (Encode(before.body) + Encode(after.witnesses)
                              + [if before.valid then 0xf5 else 0xf4] + Encode(before.aux))
  {
    var r := Merge(txItem, freshItem);
    if r.Ok? && FewWitnesses(r.value) {
      var tx := DecodeTx(txItem).value;
      var was, added := SlotsOf(tx.witnesses).value, SlotsOf(freshItem).value;
      var slots := Merged(was, added).value;
      var after := tx.(witnesses := MapItem(slots));
      WrittenReads(after, slots, false, []);
      TxWellFormed(txItem);
      PartsWellFormed(tx.witnesses);
      PartsWellFormed(freshItem);
      MergedWellFormed(was, added);
      EntriesWellFormed(slots);
      hide DecodeTx, SlotsOf, Entries, WellFormed, Encode, ListOf, EncodeTx;
      MapWellFormed(slots);
      WrittenWellFormed(after);
    }
  }

  /** The vkeys and the slots number fewer than 2^64, as in anything that fits in memory. */
  predicate FewWitnesses(txItem: Item) {
    && DecodeTx(txItem).Some? && SlotsOf(DecodeTx(txItem).value.witnesses).Some?
    && var slots := SlotsOf(DecodeTx(txItem).value.witnesses).value;
    |slots| < TAG_LIMIT && (VKEYS in slots && ListOf(slots[VKEYS]).Some? ==> |ListOf(slots[VKEYS]).value| < TAG_LIMIT)
  }

  lemma MapWellFormed(m: map<nat, Item>)
    requires |m| < TAG_LIMIT && AllWellFormed(Entries(m))
    ensures WellFormed(MapItem(m))
  {
    hide Entries;
  }

  lemma TxWellFormed(txItem: Item)
    requires WellFormed(txItem) && DecodeTx(txItem).Some?
    ensures var tx := DecodeTx(txItem).value;
            WellFormed(tx.body) && WellFormed(tx.witnesses) && WellFormed(tx.aux)
  {
    PartsWellFormed(txItem);
    var parts := ListOf(txItem).value;
    hide ListOf, WellFormed;
    var rest := parts[1..];
    assert AllWellFormed(rest);
    var last := rest[1..];
    assert AllWellFormed(last);
    assert AllWellFormed(last[1..]);
    assert parts[1] == rest[0] && parts[3] == last[1..][0];
  }

  lemma MergedWellFormed(was: map<nat, Item>, added: map<nat, Item>)
    requires SlotsWellFormed(was) && SlotsWellFormed(added)
    ensures Merged(was, added).Ok?
            && (VKEYS in Merged(was, added).value && ListOf(Merged(was, added).value[VKEYS]).Some? ==>
                  |ListOf(Merged(was, added).value[VKEYS]).value| < TAG_LIMIT)
            ==> SlotsWellFormed(Merged(was, added).value)
  {
    hide WellFormed, ListOf, IsNull, SliceItem, NoVkeys;
    if VKEYS in added && VkeysIn(was).Some? && ListOf(added[VKEYS]).Some? {
      var l0, l1 := VkeysIn(was).value, ListOf(added[VKEYS]).value;
      if VKEYS in was {
        PartsWellFormed(was[VKEYS]);
      }
      PartsWellFormed(added[VKEYS]);
      AllSplit(l0, l1);
      SliceReads(NoVkeys(was), l0 + l1);
      if |l0 + l1| < TAG_LIMIT {
        SliceWellFormed(NoVkeys(was), l0 + l1);
      }
    }
  }

  lemma SliceWellFormed(isNil: bool, items: seq<Item>)
    requires AllWellFormed(items) && |items| < TAG_LIMIT
    ensures WellFormed(SliceItem(isNil, items))
  {
  }

  // ---------- signing ----------

  /** What signs: a key, and the functions of the library that hash and sign. */
  datatype Signer = Signer(vkey: seq<Byte>, sign: seq<Byte> -> seq<Byte>)

  function Bytes(data: seq<Byte>): Item {
    String(false, WidthFor(|data|), data)
  }

  function Witness(s: Signer, hash: seq<Byte>): Item {
    ListItem([Bytes(s.vkey), Bytes(s.sign(hash))])
  }

  /** A witness set over the hash of the body's own bytes, by the payment key and, if asked for, the stake key. */
  function WitnessFor(txItem: Item, hash: seq<Byte> -> seq<Byte>, payment: Signer, stake: Option<Signer>):
    Result<Item, MergeError>
    requires WellFormed(txItem)
  {
    if DecodeTx(txItem).None? then Err(BadTx)
    else
      TxWellFormed(txItem);
      var bodyHash := hash(Encode(DecodeTx(txItem).value.body));
      var witnesses := [Witness(payment, bodyHash)] + if stake.Some? then [Witness(stake.value, bodyHash)] else [];
      Ok(MapItem(map[VKEYS := ListItem(witnesses)]))
  }

  function SignTx(txItem: Item, hash: seq<Byte> -> seq<Byte>, payment: Signer): Result<Item, MergeError>
    requires WellFormed(txItem)
  {
    var ws := WitnessFor(txItem, hash, payment, None);
    if ws.Err? then ws else Merge(txItem, ws.value)
  }

  /** A byte string with the preferred head of section 4.1 of RFC 8949. */
  predicate IsBytes(i: Item, data: seq<Byte>) {
    i.String? && !i.text && i.data == data && (|data| < TAG_LIMIT ==> i.w == Shortest(|data|))
  }

  /** A vkey witness as the ledger reads it: an array of two byte strings, the key and then what it signed. */
  predicate IsVkeyWitness(i: Item, vkey: seq<Byte>, signature: seq<Byte>) {
    i.Array? && i.w == InHead && |i.items| == 2 && IsBytes(i.items[0], vkey) && IsBytes(i.items[1], signature)
  }

  /** A witness set for a transaction has slot 0 only: the payment key's witness over the hash of the body's own bytes,
      and after it the stake key's, if that is asked for. */
  lemma WitnessesAre(txItem: Item, hash: seq<Byte> -> seq<Byte>, payment: Signer, stake: Option<Signer>)
    requires WellFormed(txItem)
    ensures var r := WitnessFor(txItem, hash, payment, stake);
            && (r.Err? <==> DecodeTx(txItem).None?)
            && (r.Ok? ==>
                  && WellFormed(DecodeTx(txItem).value.body) && SlotsOf(r.value).Some?
                  && var slots, signed := SlotsOf(r.value).value, hash(Encode(DecodeTx(txItem).value.body));
                  && slots.Keys == {0} && ListOf(slots[0]).Some?
                  && var list := ListOf(slots[0]).value;
                  && |list| == (if stake.Some? then 2 else 1)
                  && IsVkeyWitness(list[0], payment.vkey, payment.sign(signed))
                  && (stake.Some? ==> IsVkeyWitness(list[1], stake.value.vkey, stake.value.sign(signed))))
  {
    hide Entries, WellFormed, Encode, SlotsIn, DecodeTx, SlotsOf, MapItem, ListOf, Witness, ListItem, IsVkeyWitness;
    if DecodeTx(txItem).Some? {
      TxWellFormed(txItem);
      var bodyHash := hash(Encode(DecodeTx(txItem).value.body));
      var list := [Witness(payment, bodyHash)] + if stake.Some? then [Witness(stake.value, bodyHash)] else [];
      ListWritten(DecodeTx(txItem).value, list);
      WitnessIs(payment, bodyHash);
      if stake.Some? {
        WitnessIs(stake.value, bodyHash);
      }
    }
  }

  lemma ListWritten(tx: Tx, list: seq<Item>)
    ensures var slots := map[VKEYS := ListItem(list)];
            SlotsOf(MapItem(slots)) == Some(slots) && slots.Keys == {0} && ListOf(slots[0]) == Some(list)
  {
    hide Entries, SlotsIn, SlotsOf, MapItem;
    WrittenReads(tx, map[VKEYS := ListItem(list)], false, list);
  }

  lemma WitnessIs(s: Signer, hash: seq<Byte>)
    ensures IsVkeyWitness(Witness(s, hash), s.vkey, s.sign(hash))
  {
  }

  /** The signed transaction is the unsigned one with one vkey witness more, after the old ones in slot 0: the payment
      key, and its signature of the hash of the very bytes of the body that is returned. */
  lemma SignedIsSent(txItem: Item, hash: seq<Byte> -> seq<Byte>, payment: Signer)
    requires WellFormed(txItem)
    ensures var r := SignTx(txItem, hash, payment);
            r.Ok? ==>
              && DecodeTx(txItem).Some? && DecodeTx(r.value).Some?
              && var before, after := DecodeTx(txItem).value, DecodeTx(r.value).value;
              && after.(witnesses := before.witnesses) == before && WellFormed(after.body)
              && SlotsOf(before.witnesses).Some? && SlotsOf(after.witnesses).Some?
              && var was, now := SlotsOf(before.witnesses).value, SlotsOf(after.witnesses).value;
              && now - {0} == was - {0} && VkeysIn(was).Some? && 0 in now && ListOf(now[0]).Some?
              && var list, n := ListOf(now[0]).value, |VkeysIn(was).value|;
              && |list| == n + 1 && list[..n] == VkeysIn(was).value
              && IsVkeyWitness(list[n], payment.vkey, payment.sign(hash(Encode(after.body))))
  {
    hide Entries, WellFormed, Encode, SlotsIn, Witness, ListItem, MapItem, WitnessFor, IsVkeyWitness, IsNull, SliceItem;
    hide DecodeTx, SlotsOf, ListOf, EncodeTx, Merge;
    WitnessesAre(txItem, hash, payment, None);
    var ws := WitnessFor(txItem, hash, payment, None);
    if ws.Ok? {
      MergeKeeps(txItem, ws.value);
    }
  }
}
