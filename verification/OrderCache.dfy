/** Order listings cached for a while, by several sources over one shared cache. */
module OrderCache {
  import opened DecimalKeys
  import opened Wrappers

  /** A listing is passed on unread. */
  datatype Order = Order(id: string, details: string)

  type Orders = seq<Order>

  datatype Query = Query(address: string, limit: int64, refresh: bool)

  datatype Entry = Entry(value: Orders, expires: int)

  type Contents = map<string, Entry>

  // ---------- the cache ----------

  /** An entry still counts at the moment it expires. */
  function Lookup(data: Contents, key: string, now: int): Option<Orders> {
    if key !in data || now > data[key].expires then None else Some(data[key].value)
  }

  class MemoryOrderCache {
    var data: Contents

    constructor ()
      ensures data == map[]
    {
      data := map[];
    }

    method Get(key: string, now: int) returns (hit: Option<Orders>)
      ensures hit == Lookup(data, key, now)
    {
      if key !in data { return None; }
      var e := data[key];
      if now > e.expires { return None; }
      return Some(e.value);
    }

    method Set(key: string, value: Orders, ttl: int, now: int)
      modifies this
      ensures data == old(data)[key := Entry(value, now + ttl)]
    {
      data := data[key := Entry(value, now + ttl)];
    }
  }

  // ---------- a source over it ----------

  /** One call: who asks, at what times the cache is read and written, and what the upstream would answer. */
  datatype Call = Call(source: string, ttl: int, query: Query, lookAt: int, storeAt: int,
                       upstream: Result<Orders, string>)

  function KeyOf(c: Call): string {
    CacheKey(c.source, c.query.address, c.query.limit)
  }

  /** What the cache answers, if it is asked and has a listing that is still good. */
  function CacheAnswer(data: Contents, c: Call): Option<Orders> {
    if c.ttl <= 0 || c.query.refresh then None else Lookup(data, KeyOf(c), c.lookAt)
  }

  function Answer(data: Contents, c: Call): Result<Orders, string> {
    var hit := CacheAnswer(data, c);
    if hit.Some? then Ok(hit.value) else c.upstream
  }

  /** A call stores what it fetched itself, unless that failed or its source does not cache. */
  predicate Stores(data: Contents, c: Call) {
    c.ttl > 0 && CacheAnswer(data, c).None? && c.upstream.Ok?
  }

  function AfterCall(data: Contents, c: Call): Contents {
    if Stores(data, c) then data[KeyOf(c) := Entry(c.upstream.value, c.storeAt + c.ttl)] else data
  }

  class CachedSource {
    const name: string
    const orderCache: MemoryOrderCache
    const ttl: int

    constructor (name: string, orderCache: MemoryOrderCache, ttl: int)
      ensures this.name == name && this.orderCache == orderCache && this.ttl == ttl
    {
      this.name, this.orderCache, this.ttl := name, orderCache, ttl;
    }

    method FetchOrders(q: Query, lookAt: int, storeAt: int, upstream: Result<Orders, string>)
      returns (r: Result<Orders, string>)
      modifies orderCache
      ensures var c := Call(name, ttl, q, lookAt, storeAt, upstream);
              r == Answer(old(orderCache.data), c) && orderCache.data == AfterCall(old(orderCache.data), c)
    {
      if ttl <= 0 { return upstream; }
      var limit := WriteItoa(q.limit);
      var key := "orders:" + name + ":" + q.address + ":" + limit;
      if !q.refresh {
        var hit := orderCache.Get(key, lookAt);
        if hit.Some? { return Ok(hit.value); }
      }
      if upstream.Err? { return upstream; }
      orderCache.Set(key, upstream.value, ttl, storeAt);
      return Ok(upstream.value);
    }
  }

  // ---------- histories ----------

  /** The shared cache after some calls, in order. */
  function After(calls: seq<Call>): Contents
    decreases |calls|
  {
    if calls == [] then map[] else AfterCall(After(calls[..|calls| - 1]), calls[|calls| - 1])
  }

  predicate StoresAt(calls: seq<Call>, j: nat, key: string)
    requires j < |calls|
  {
    Stores(After(calls[..j]), calls[j]) && KeyOf(calls[j]) == key
  }

  /** An entry is that of the last call that stored under its key. */
  lemma {:induction false} EntryIsLast(calls: seq<Call>, key: string) returns (j: nat)
    requires key in After(calls)
    ensures j < |calls| && StoresAt(calls, j, key) && calls[j].ttl > 0 && calls[j].upstream.Ok?
    ensures After(calls)[key] == Entry(calls[j].upstream.value, calls[j].storeAt + calls[j].ttl)
    ensures forall k :: j < k < |calls| ==> !StoresAt(calls, k, key)
    decreases |calls|
  {
    hide KeyOf, CacheAnswer;
    var n := |calls| - 1;
    var before := calls[..n];
    if Stores(After(before), calls[n]) && KeyOf(calls[n]) == key {
      j := n;
    } else {
      j := EntryIsLast(before, key);
      assert before[..j] == calls[..j];
      forall k | j < k < |calls|
        ensures !StoresAt(calls, k, key)
      {
        if k < n {
          assert before[..k] == calls[..k];
          assert !StoresAt(before, k, key);
        }
      }
    }
  }

  predicate ColonFree(calls: seq<Call>) {
    forall i :: 0 <= i < |calls| ==> ':' !in calls[i].source
  }

  predicate SameQuestion(a: Call, b: Call) {
    a.source == b.source && a.query.address == b.query.address && a.query.limit == b.query.limit
  }

  /** Over an upstream that may change: what the cache answers was a successful answer to the same question, stored at
      most one lifetime ago, and the last one stored for that question. */
  lemma HitIsRecent(calls: seq<Call>, c: Call) returns (j: nat)
    requires ColonFree(calls) && ':' !in c.source
    requires CacheAnswer(After(calls), c).Some?
    ensures j < |calls| && SameQuestion(calls[j], c) && StoresAt(calls, j, KeyOf(c))
    ensures calls[j].upstream == Ok(CacheAnswer(After(calls), c).value)
    ensures c.lookAt <= calls[j].storeAt + calls[j].ttl
    ensures forall k :: j < k < |calls| && SameQuestion(calls[k], c) ==> !Stores(After(calls[..k]), calls[k])
  {
    hide CacheKey, After;
    j := EntryIsLast(calls, KeyOf(c));
    CacheKeyIsInjective(calls[j].source, calls[j].query.address, calls[j].query.limit,
                        c.source, c.query.address, c.query.limit);
    forall k | j < k < |calls| && SameQuestion(calls[k], c)
      ensures !Stores(After(calls[..k]), calls[k])
    {
      assert !StoresAt(calls, k, KeyOf(c));
    }
  }

  /** Over an upstream that does not change: every call, in any history of calls, refreshes, lifetimes and failures,
      gets the upstream's answer to its own question, or the error the upstream gave it. */
  lemma CacheIsTransparent(calls: seq<Call>, c: Call, truth: (string, string, int64) -> Orders)
    requires ColonFree(calls) && ':' !in c.source
    requires forall i :: 0 <= i < |calls| && calls[i].upstream.Ok? ==>
               calls[i].upstream.value == truth(calls[i].source, calls[i].query.address, calls[i].query.limit)
    requires c.upstream.Ok? ==> c.upstream.value == truth(c.source, c.query.address, c.query.limit)
    ensures var r := Answer(After(calls), c);
            if r.Ok? then r.value == truth(c.source, c.query.address, c.query.limit) else r == c.upstream
  {
    hide CacheKey, After, CacheAnswer;
    if CacheAnswer(After(calls), c).Some? {
      var j := HitIsRecent(calls, c);
    }
  }

  // ---------- refreshing ----------

  /** A call that leaves alone the listing another stored until `expires`: it asks something else, or it is answered
      from that listing, or it has nothing to store. */
  predicate LeavesAlone(b: Call, c: Call, expires: int) {
    !SameQuestion(b, c) || b.upstream.Err? || b.ttl <= 0 || (!b.query.refresh && b.lookAt <= expires)
  }

  /** A source that does not cache is always answered by the upstream, and a call that asks for fresh data is, whatever
      the cache holds. */
  lemma RefreshIsFresh(calls: seq<Call>, c: Call)
    requires c.query.refresh || c.ttl <= 0
    ensures Answer(After(calls), c) == c.upstream
  {
    hide After, KeyOf;
  }

  /** What it is told is what later calls with the same question are told, until it expires or is replaced, and whatever
      their own upstream would say; the same goes for any call that got to the upstream. */
  lemma FetchedIsServed(calls: seq<Call>, c: Call, between: seq<Call>, d: Call)
    requires ColonFree([c, d]) && ColonFree(between) && SameQuestion(c, d)
    requires c.ttl > 0 && c.upstream.Ok?
    requires c.query.refresh || KeyOf(c) !in After(calls) || c.lookAt > After(calls)[KeyOf(c)].expires
    requires forall b :: b in between ==> LeavesAlone(b, c, c.storeAt + c.ttl)
    ensures d.ttl > 0 && !d.query.refresh && d.lookAt <= c.storeAt + c.ttl ==>
              Answer(After(calls + [c] + between), d) == c.upstream
  {
    hide After, KeyOf;
    var entry := Entry(c.upstream.value, c.storeAt + c.ttl);
    var asked := calls + [c];
    AfterLast(calls, c);
    assert [c, d][0] == c;
    EntryStays(asked, between, c, entry);
    assert KeyOf(d) == KeyOf(c) by { SameKey(c, d); }
  }

  lemma AfterLast(calls: seq<Call>, c: Call)
    ensures After(calls + [c]) == AfterCall(After(calls), c)
  {
    var all := calls + [c];
    assert all[..|all| - 1] == calls;
  }

  lemma SameKey(c: Call, d: Call)
    requires SameQuestion(c, d)
    ensures KeyOf(c) == KeyOf(d)
  {
  }

  lemma {:induction false} EntryStays(calls: seq<Call>, between: seq<Call>, c: Call, entry: Entry)
    requires ':' !in c.source && ColonFree(between)
    requires forall b :: b in between ==> LeavesAlone(b, c, entry.expires)
    requires KeyOf(c) in After(calls) && After(calls)[KeyOf(c)] == entry
    ensures KeyOf(c) in After(calls + between) && After(calls + between)[KeyOf(c)] == entry
    decreases |between|
  {
    hide After, CacheKey;
    if between == [] {
      assert calls + between == calls;
    } else {
      var n := |between| - 1;
      var b, before := between[n], between[..n];
      assert calls + between == (calls + before) + [b];
      EntryStays(calls, before, c, entry);
      AfterLast(calls + before, b);
      if KeyOf(b) == KeyOf(c) {
        CacheKeyIsInjective(b.source, b.query.address, b.query.limit, c.source, c.query.address, c.query.limit);
      }
      assert LeavesAlone(b, c, entry.expires);
    }
  }

  // ---------- calls that interleave ----------

  /** Where a call is: about to look, at the upstream, or answered. */
  datatype Phase = Asking | Fetching | Answered(answer: Result<Orders, string>)

  datatype Caller = Caller(call: Call, phase: Phase)

  datatype Server = Server(data: Contents, callers: seq<Caller>)

  /** A call's next step: its look, or what it does once the upstream has answered. */
  function Advance(s: Server, who: nat): Server
    requires who < |s.callers|
  {
    var c := s.callers[who].call;
    match s.callers[who].phase
    case Asking =>
      var hit := CacheAnswer(s.data, c);
      s.(callers := s.callers[who := Caller(c, if hit.Some? then Answered(Ok(hit.value)) else Fetching)])
    case Fetching =>
      Server(if c.ttl > 0 && c.upstream.Ok? then s.data[KeyOf(c) := Entry(c.upstream.value, c.storeAt + c.ttl)]
             else s.data,
             s.callers[who := Caller(c, Answered(c.upstream))])
    case Answered(_) => s
  }

  function Interleaved(s: Server, turns: seq<nat>): (after: Server)
    requires forall i :: 0 <= i < |turns| ==> turns[i] < |s.callers|
    ensures |after.callers| == |s.callers|
    decreases |turns|
  {
    if turns == [] then s else Interleaved(Advance(s, turns[0]), turns[1..])
  }

  /** A call by itself is its two steps. */
  lemma CallIsTwoSteps(s: Server, who: nat)
    requires who < |s.callers| && s.callers[who].phase == Asking
    ensures var c := s.callers[who].call;
            var looked := Advance(s, who);
            var done := if looked.callers[who].phase.Fetching? then Advance(looked, who) else looked;
            done == Server(AfterCall(s.data, c), s.callers[who := Caller(c, Answered(Answer(s.data, c)))])
  {
    hide KeyOf, CacheAnswer;
    var c := s.callers[who].call;
    assert s.callers[who := Caller(c, Fetching)][who := Caller(c, Answered(c.upstream))]
           == s.callers[who := Caller(c, Answered(c.upstream))];
  }

  /** The entry is one that a finished call stored. */
  predicate StoredBy(caller: Caller, key: string, e: Entry) {
    && caller.phase.Answered? && KeyOf(caller.call) == key
    && caller.call.upstream == Ok(e.value) && e.expires == caller.call.storeAt + caller.call.ttl
  }

  predicate Stored(callers: seq<Caller>, key: string, e: Entry) {
    exists i :: 0 <= i < |callers| && StoredBy(callers[i], key, e)
  }

  /** An answer is the upstream's to the call itself, or that of a finished call under the same key, still good when the
      cache was looked at. */
  ghost predicate Justified(callers: seq<Caller>, c: Call, answer: Result<Orders, string>) {
    answer == c.upstream
    || exists e :: Stored(callers, KeyOf(c), e) && answer == Ok(e.value) && c.lookAt <= e.expires
  }

  ghost predicate Consistent(s: Server) {
    && (forall key :: key in s.data ==> Stored(s.callers, key, s.data[key]))
    && (forall i :: 0 <= i < |s.callers| && s.callers[i].phase.Answered? ==>
          Justified(s.callers, s.callers[i].call, s.callers[i].phase.answer))
  }

  lemma StoredStays(s: Server, who: nat, key: string, e: Entry)
    requires who < |s.callers| && Stored(s.callers, key, e)
    ensures Stored(Advance(s, who).callers, key, e)
  {
    hide KeyOf, CacheAnswer;
    var i :| 0 <= i < |s.callers| && StoredBy(s.callers[i], key, e);
    assert StoredBy(Advance(s, who).callers[i], key, e);
  }

  lemma AdvanceKeeps(s: Server, who: nat)
    requires Consistent(s) && who < |s.callers|
    ensures Consistent(Advance(s, who))
  {
    hide KeyOf, Stored, CacheAnswer;
    var after := Advance(s, who);
    forall key, e | Stored(s.callers, key, e)
      ensures Stored(after.callers, key, e)
    {
      StoredStays(s, who, key, e);
    }
    NewlyStored(s, who);
    NewlyAnswered(s, who);
  }

  lemma NewlyStored(s: Server, who: nat)
    requires who < |s.callers|
    ensures var key, after := KeyOf(s.callers[who].call), Advance(s, who);
            after.data == s.data
            || (key in after.data && after.data == s.data[key := after.data[key]]
                && Stored(after.callers, key, after.data[key]))
  {
    hide KeyOf, CacheAnswer;
    var after, c := Advance(s, who), s.callers[who].call;
    if s.callers[who].phase.Fetching? && c.ttl > 0 && c.upstream.Ok? {
      assert StoredBy(after.callers[who], KeyOf(c), after.data[KeyOf(c)]);
    }
  }

  lemma NewlyAnswered(s: Server, who: nat)
    requires who < |s.callers| && Consistent(s)
    ensures var caller := Advance(s, who).callers[who];
            caller.phase.Answered? ==> Justified(s.callers, caller.call, caller.phase.answer)
  {
    hide KeyOf, Stored;
    var c := s.callers[who].call;
    if s.callers[who].phase.Asking? && CacheAnswer(s.data, c).Some? {
      assert Stored(s.callers, KeyOf(c), s.data[KeyOf(c)]);
    }
  }

  lemma {:induction false} InterleavedKeeps(s: Server, turns: seq<nat>)
    requires Consistent(s) && forall i :: 0 <= i < |turns| ==> turns[i] < |s.callers|
    ensures Consistent(Interleaved(s, turns))
    ensures forall i :: 0 <= i < |s.callers| ==> Interleaved(s, turns).callers[i].call == s.callers[i].call
    decreases |turns|
  {
    hide Consistent;
    if turns != [] {
      AdvanceKeeps(s, turns[0]);
      hide CacheAnswer, KeyOf;
      InterleavedKeeps(Advance(s, turns[0]), turns[1..]);
    }
  }

  /** A server whose cache is empty, and calls about to be made to it. */
  function Opened(calls: seq<Call>): Server {
    Server(map[], seq(|calls|, i requires 0 <= i < |calls| => Caller(calls[i], Asking)))
  }

  /** However the looks and stores of any calls interleave, over an upstream that may change: each is answered with what
      the upstream told it, or with a successful answer to the same question, stored at most one lifetime before it
      looked. */
  lemma InterleavedHitIsRecent(calls: seq<Call>, turns: seq<nat>, who: nat)
    requires ColonFree(calls) && who < |calls| && forall i :: 0 <= i < |turns| ==> turns[i] < |calls|
    ensures var phase, c := Interleaved(Opened(calls), turns).callers[who].phase, calls[who];
            phase.Answered? && phase.answer != c.upstream ==>
              exists j :: 0 <= j < |calls| && SameQuestion(calls[j], c) && calls[j].upstream == phase.answer
                          && phase.answer.Ok? && c.lookAt <= calls[j].storeAt + calls[j].ttl
  {
    hide CacheKey, CacheAnswer, Interleaved;
    InterleavedKeeps(Opened(calls), turns);
    var s, c := Interleaved(Opened(calls), turns), calls[who];
    var phase := s.callers[who].phase;
    if phase.Answered? && phase.answer != c.upstream {
      var e :| Stored(s.callers, KeyOf(c), e) && phase.answer == Ok(e.value) && c.lookAt <= e.expires;
      var j :| 0 <= j < |s.callers| && StoredBy(s.callers[j], KeyOf(c), e);
      CacheKeyIsInjective(calls[j].source, calls[j].query.address, calls[j].query.limit,
                          c.source, c.query.address, c.query.limit);
    }
  }

  /** So transparency does not need calls to follow one another. */
  lemma InterleavedIsTransparent(calls: seq<Call>, turns: seq<nat>, who: nat, truth: (string, string, int64) -> Orders)
    requires ColonFree(calls) && who < |calls| && forall i :: 0 <= i < |turns| ==> turns[i] < |calls|
    requires forall i :: 0 <= i < |calls| && calls[i].upstream.Ok? ==>
               calls[i].upstream.value == truth(calls[i].source, calls[i].query.address, calls[i].query.limit)
    ensures var phase, c := Interleaved(Opened(calls), turns).callers[who].phase, calls[who];
            phase.Answered? ==>
              if phase.answer.Ok? then phase.answer.value == truth(c.source, c.query.address, c.query.limit)
              else phase.answer == c.upstream
  {
    hide Interleaved;
    InterleavedHitIsRecent(calls, turns, who);
  }

  /** No listing is given to a call that asks for fresh data, or whose source does not cache. */
  predicate FreshAnswers(s: Server) {
    forall i :: 0 <= i < |s.callers| && (s.callers[i].call.query.refresh || s.callers[i].call.ttl <= 0) ==>
                  s.callers[i].phase.Answered? ==> s.callers[i].phase.answer == s.callers[i].call.upstream
  }

  lemma {:induction false} InterleavedStaysFresh(s: Server, turns: seq<nat>)
    requires FreshAnswers(s) && forall i :: 0 <= i < |turns| ==> turns[i] < |s.callers|
    ensures FreshAnswers(Interleaved(s, turns))
    decreases |turns|
  {
    hide KeyOf;
    if turns != [] {
      assert FreshAnswers(Advance(s, turns[0]));
      InterleavedStaysFresh(Advance(s, turns[0]), turns[1..]);
    }
  }

  /** In every interleaving too a call that asks for fresh data is answered by the upstream. */
  lemma InterleavedRefreshIsFresh(calls: seq<Call>, turns: seq<nat>, who: nat)
    requires who < |calls| && forall i :: 0 <= i < |turns| ==> turns[i] < |calls|
    requires calls[who].query.refresh || calls[who].ttl <= 0
    ensures var phase := Interleaved(Opened(calls), turns).callers[who].phase;
            phase.Answered? ==> phase.answer == calls[who].upstream
  {
    hide Interleaved;
    InterleavedKeeps(Opened(calls), turns);
    InterleavedStaysFresh(Opened(calls), turns);
  }

  /** A step of `t` leaves the listing that `who` stored: it asks something else, or has nothing to store. */
  predicate LetsStand(s: Server, t: nat, who: nat)
    requires t < |s.callers| && who < |s.callers|
  {
    t == who || !SameQuestion(s.callers[t].call, s.callers[who].call)
    || s.callers[t].call.upstream.Err? || s.callers[t].call.ttl <= 0
  }

  /** And what it is told is what the next call with the same question is told, if that looks before it expires and no
      other with that question finished a fetch in between. */
  lemma InterleavedFetchIsServed(s: Server, who: nat, between: seq<nat>, next: nat)
    requires who < |s.callers| && next < |s.callers| && s.callers[who].phase.Fetching? && s.callers[next].phase.Asking?
    requires forall i :: 0 <= i < |s.callers| ==> ':' !in s.callers[i].call.source
    requires forall i :: 0 <= i < |between| ==>
               between[i] < |s.callers| && between[i] != next && LetsStand(s, between[i], who)
    ensures var c, d := s.callers[who].call, s.callers[next].call;
            SameQuestion(c, d) && c.ttl > 0 && c.upstream.Ok? && d.ttl > 0 && !d.query.refresh
            && d.lookAt <= c.storeAt + c.ttl ==>
              Advance(Interleaved(Advance(s, who), between), next).callers[next].phase == Answered(c.upstream)
  {
    hide Interleaved, CacheKey;
    var c, d := s.callers[who].call, s.callers[next].call;
    if SameQuestion(c, d) && c.ttl > 0 && c.upstream.Ok? {
      var stored := Advance(s, who);
      var entry := Entry(c.upstream.value, c.storeAt + c.ttl);
      EntryOutlasts(stored, who, between, next, entry);
    }
  }

  /** A finished call's entry stays through the steps of calls that store nothing under its key. */
  lemma {:induction false} EntryOutlasts(s: Server, who: nat, between: seq<nat>, next: nat, entry: Entry)
    requires who < |s.callers| && next < |s.callers| && s.callers[who].phase.Answered?
    requires forall i :: 0 <= i < |s.callers| ==> ':' !in s.callers[i].call.source
    requires forall i :: 0 <= i < |between| ==>
               between[i] < |s.callers| && between[i] != next && LetsStand(s, between[i], who)
    requires var key := KeyOf(s.callers[who].call); key in s.data && s.data[key] == entry
    ensures var after, key := Interleaved(s, between), KeyOf(s.callers[who].call);
            key in after.data && after.data[key] == entry && after.callers[next] == s.callers[next]
    decreases |between|
  {
    hide CacheKey, CacheAnswer;
    if between != [] {
      var b, c := s.callers[between[0]].call, s.callers[who].call;
      if KeyOf(b) == KeyOf(c) {
        CacheKeyIsInjective(b.source, b.query.address, b.query.limit, c.source, c.query.address, c.query.limit);
      }
      EntryOutlasts(Advance(s, between[0]), who, between[1..], next, entry);
    }
  }

  // ---------- names with a colon ----------

  /** Names with a colon break it: the listing one source stored is another's answer at another address. */
  lemma ColonNamesMix(before: string, after: string, address: string, limit: int64, mine: Orders, error: string)
    ensures var c1 := Call(before + ":" + after, 1, Query(address, limit, false), 0, 0, Ok(mine));
            var c2 := Call(before, 1, Query(after + ":" + address, limit, false), 0, 0, Err(error));
            Answer(After([c1]), c2) == Ok(mine)
  {
    hide CacheKey;
    ColonNamesCollide(before, after, address, limit);
    var c1: Call := Call(before + ":" + after, 1, Query(address, limit, false), 0, 0, Ok(mine));
    assert After([c1][..0]) == map[];
    assert After([c1]) == AfterCall(map[], c1);
  }
}
