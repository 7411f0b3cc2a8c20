/** Callers of a source's markets sharing one upstream fetch: the first to find the cache cold leads, the others wait
    for what it publishes. A run interleaves the steps of any number of callers with the clock; what the upstream
    answers comes with the step that receives it. */
module SingleFlight {
  import opened Wrappers

  /** A market as far as the cache is concerned: it is passed on unread. */
  datatype Market = Market(poolId: string, terms: string)

  type Markets = seq<Market>

  datatype Failure = Upstream | Cancelled

  type Answer = Result<Markets, Failure>

  /** Where a caller is. One who found the cache cold remembers how often it had been written. A leader's steps: the
      upstream call is out; its result is to be published; the waiters are to be woken; the cache is to be written. */
  datatype PC =
    | CheckCache | TakeLock(seen: nat) | Fetching(id: nat) | Returned(id: nat, got: Answer)
    | Waking(id: nat, got: Answer) | Writing(id: nat, got: Answer) | Waiting(id: nat)
    | Done(how: Way, result: Answer)

  datatype Way = Hit | Led(id: nat) | Waited(id: nat) | GaveUp

  /** One fetch: who leads it, what it published, and whether its waiters were woken. */
  datatype Fetch = Fetch(leader: nat, published: Option<Answer>, woken: bool)

  /** `source` is the fetch the entry came from, `index` the number of cache writes before it. */
  datatype Entry = Entry(value: Markets, expires: nat, source: nat, index: nat)

  datatype State = State(callers: seq<PC>, pending: Option<nat>, fetches: seq<Fetch>, cache: Option<Entry>, writes: nat,
                         now: nat)

  datatype Move = Step(who: nat, answer: Answer) | GiveUp(who: nat) | Tick

  function At(s: State, who: nat, pc: PC): State
    requires who < |s.callers|
  {
    s.(callers := s.callers[who := pc])
  }

  predicate KnownAt(s: State, p: nat)
    requires p < |s.callers|
  {
    match s.callers[p]
    case Fetching(id) => id < |s.fetches|
    case Returned(id, _) => id < |s.fetches|
    case Waking(id, _) => id < |s.fetches|
    case Writing(id, _) => id < |s.fetches|
    case Waiting(id) => id < |s.fetches|
    case _ => true
  }

  predicate Known(s: State) {
    forall p :: 0 <= p < |s.callers| ==> KnownAt(s, p)
  }

  /** An entry stands while its lifetime lasts. */
  predicate Standing(s: State) {
    s.cache.Some? && s.now <= s.cache.value.expires
  }

  function StepOf(ttl: nat, s: State, who: nat, answer: Answer): State
    requires who < |s.callers| && KnownAt(s, who)
  {
    match s.callers[who]
    case CheckCache =>
      if Standing(s) then At(s, who, Done(Hit, Ok(s.cache.value.value))) else At(s, who, TakeLock(s.writes))
    case TakeLock(_) =>
      if s.pending.Some? then At(s, who, Waiting(s.pending.value))
      else At(s, who, Fetching(|s.fetches|)).(pending := Some(|s.fetches|),
                                              fetches := s.fetches + [Fetch(who, None, false)])
    case Fetching(id) => At(s, who, Returned(id, answer))
    case Returned(id, got) =>
      At(s, who, Waking(id, got)).(pending := None, fetches := s.fetches[id := s.fetches[id].(published := Some(got))])
    case Waking(id, got) =>
      At(s, who, Writing(id, got)).(fetches := s.fetches[id := s.fetches[id].(woken := true)])
    case Writing(id, got) =>
      if got.Ok? then
        At(s, who, Done(Led(id), got)).(cache := Some(Entry(got.value, s.now + ttl, id, s.writes)),
                                        writes := s.writes + 1)
      else At(s, who, Done(Led(id), got))
    case Waiting(id) =>
      if s.fetches[id].woken && s.fetches[id].published.Some? then
        At(s, who, Done(Waited(id), s.fetches[id].published.value))
      else s
    case Done(_, _) => s
  }

  /** A waiter whose request is cancelled stops waiting. */
  function After(ttl: nat, s: State, m: Move): State
    requires Known(s)
  {
    match m
    case Step(who, answer) => if who < |s.callers| then StepOf(ttl, s, who, answer) else s
    case GiveUp(who) =>
      if who < |s.callers| && s.callers[who].Waiting? then At(s, who, Done(GaveUp, Err(Cancelled))) else s
    case Tick => s.(now := s.now + 1)
  }

  // ---------- what every run keeps ----------

  predicate BeforePublishing(pc: PC, id: nat) {
    (pc.Fetching? && pc.id == id) || (pc.Returned? && pc.id == id)
  }

  /** What a caller's place says of the fetches. */
  predicate Fits(s: State, p: nat)
    requires p < |s.callers|
  {
    match s.callers[p]
    case CheckCache => true
    case TakeLock(_) => true
    case Fetching(id) => id < |s.fetches| && s.fetches[id] == Fetch(p, None, false) && s.pending == Some(id)
    case Returned(id, _) => id < |s.fetches| && s.fetches[id] == Fetch(p, None, false) && s.pending == Some(id)
    case Waking(id, got) => id < |s.fetches| && s.fetches[id] == Fetch(p, Some(got), false)
    case Writing(id, got) => id < |s.fetches| && s.fetches[id] == Fetch(p, Some(got), true)
    case Waiting(id) => id < |s.fetches|
    case Done(Led(id), got) => id < |s.fetches| && s.fetches[id] == Fetch(p, Some(got), true)
    case Done(Waited(id), got) => id < |s.fetches| && s.fetches[id].published == Some(got) && s.fetches[id].woken
    case Done(Hit, got) => got.Ok?
    case Done(GaveUp, got) => got == Err(Cancelled)
  }

  predicate LedTo(pc: PC, id: nat, got: Answer) {
    pc == Writing(id, got) || pc == Done(Led(id), got)
  }

  /** What a fetch's state says of its leader. */
  predicate LeaderFits(s: State, id: nat)
    requires id < |s.fetches|
  {
    var f := s.fetches[id];
    && f.leader < |s.callers|
    && (f.published.None? <==> s.pending == Some(id))
    && (f.published.None? ==> BeforePublishing(s.callers[f.leader], id) && !f.woken)
    && (f.published.Some? && !f.woken ==> s.callers[f.leader] == Waking(id, f.published.value))
    && (f.woken ==> f.published.Some? && LedTo(s.callers[f.leader], id, f.published.value))
  }

  predicate Cached(s: State) {
    s.cache.Some? ==>
      var e := s.cache.value;
      e.source < |s.fetches| && s.fetches[e.source].published == Some(Ok(e.value))
  }

  predicate Inv(s: State) {
    && (forall p :: 0 <= p < |s.callers| ==> Fits(s, p))
    && (forall id :: 0 <= id < |s.fetches| ==> LeaderFits(s, id))
    && (s.pending.Some? ==> s.pending.value < |s.fetches|)
    && Cached(s)
  }

  lemma InvKnown(s: State)
    requires Inv(s)
    ensures Known(s)
  {
    forall p | 0 <= p < |s.callers|
      ensures KnownAt(s, p)
    {
      assert Fits(s, p);
    }
  }

  /** Nothing published changes, and no woken fetch falls asleep. */
  predicate Extends(s: State, t: State) {
    && |s.fetches| <= |t.fetches| && |t.callers| == |s.callers|
    && forall id :: 0 <= id < |s.fetches| ==>
         && t.fetches[id].leader == s.fetches[id].leader
         && (s.fetches[id].published.Some? ==> t.fetches[id].published == s.fetches[id].published)
         && (s.fetches[id].woken ==> t.fetches[id].woken)
  }

  /** A step that leaves the fetches and moves only one caller. */
  lemma QuietStep(s: State, t: State, who: nat)
    requires Inv(s) && who < |s.callers| == |t.callers|
    requires t.callers == s.callers[who := t.callers[who]] && t.fetches == s.fetches && t.pending == s.pending
    requires Fits(t, who) && Cached(t)
    requires forall id :: 0 <= id < |s.fetches| && s.fetches[id].leader == who ==> LeaderFits(t, id)
    ensures Inv(t)
  {
    forall p | 0 <= p < |s.callers|
      ensures Fits(t, p)
    {
      assert Fits(s, p);
    }
    forall id | 0 <= id < |s.fetches|
      ensures LeaderFits(t, id)
    {
      assert LeaderFits(s, id);
    }
  }

  /** A caller leads one fetch. */
  lemma LeadsOne(s: State, who: nat, id: nat)
    requires Inv(s) && who < |s.callers| && id < |s.fetches| && s.fetches[id].leader == who
    ensures match s.callers[who]
            case Fetching(own) => own == id
            case Returned(own, _) => own == id
            case Waking(own, _) => own == id
            case Writing(own, _) => own == id
            case Done(Led(own), _) => own == id
            case _ => false
  {
    assert LeaderFits(s, id);
  }

  lemma WaitersLeadNone(s: State, who: nat)
    requires Inv(s) && who < |s.callers| && s.callers[who].Waiting?
    ensures forall id :: 0 <= id < |s.fetches| ==> s.fetches[id].leader != who
  {
    forall id | 0 <= id < |s.fetches|
      ensures s.fetches[id].leader != who
    {
      assert LeaderFits(s, id);
    }
  }

  lemma LeadKeeps(s: State, who: nat)
    requires Inv(s) && who < |s.callers| && s.callers[who].TakeLock? && s.pending.None?
    ensures var t := At(s, who, Fetching(|s.fetches|)).(pending := Some(|s.fetches|),
                                                        fetches := s.fetches + [Fetch(who, None, false)]);
            Inv(t)
  {
    var t := At(s, who, Fetching(|s.fetches|)).(pending := Some(|s.fetches|),
                                                fetches := s.fetches + [Fetch(who, None, false)]);
    forall p | 0 <= p < |s.callers|
      ensures Fits(t, p)
    {
      assert Fits(s, p);
    }
    forall id | 0 <= id < |t.fetches|
      ensures LeaderFits(t, id)
    {
      if id < |s.fetches| {
        assert LeaderFits(s, id);
      }
    }
  }

  lemma PublishKeeps(s: State, who: nat)
    requires Inv(s) && who < |s.callers| && s.callers[who].Returned?
    ensures var (id, got) := (s.callers[who].id, s.callers[who].got);
            id < |s.fetches|
            && Inv(At(s, who, Waking(id, got)).(pending := None,
                                               fetches := s.fetches[id := s.fetches[id].(published := Some(got))]))
  {
    assert Fits(s, who);
    var (id, got) := (s.callers[who].id, s.callers[who].got);
    var t := At(s, who, Waking(id, got)).(pending := None,
                                          fetches := s.fetches[id := s.fetches[id].(published := Some(got))]);
    forall p | 0 <= p < |s.callers|
      ensures Fits(t, p)
    {
      assert Fits(s, p);
    }
    forall i | 0 <= i < |s.fetches|
      ensures LeaderFits(t, i)
    {
      assert LeaderFits(s, i);
    }
  }

  lemma WakeKeeps(s: State, who: nat)
    requires Inv(s) && who < |s.callers| && s.callers[who].Waking?
    ensures var (id, got) := (s.callers[who].id, s.callers[who].got);
            id < |s.fetches|
            && Inv(At(s, who, Writing(id, got)).(fetches := s.fetches[id := s.fetches[id].(woken := true)]))
  {
    assert Fits(s, who);
    var (id, got) := (s.callers[who].id, s.callers[who].got);
    var t := At(s, who, Writing(id, got)).(fetches := s.fetches[id := s.fetches[id].(woken := true)]);
    forall p | 0 <= p < |s.callers|
      ensures Fits(t, p)
    {
      assert Fits(s, p);
    }
    forall i | 0 <= i < |s.fetches|
      ensures LeaderFits(t, i)
    {
      assert LeaderFits(s, i);
    }
  }

  lemma StepKeepsInv(ttl: nat, s: State, who: nat, answer: Answer)
    requires Inv(s) && Known(s) && who < |s.callers|
    ensures Inv(StepOf(ttl, s, who, answer))
  {
    hide Inv, Fits, LeaderFits, Known;
    match s.callers[who]
    case Returned(_, _) => PublishKeeps(s, who);
    case Waking(_, _) => WakeKeeps(s, who);
    case Done(_, _) =>
    case TakeLock(_) =>
      if s.pending.None? {
        LeadKeeps(s, who);
      } else {
        OtherStepKeeps(ttl, s, who, answer);
      }
    case _ => OtherStepKeeps(ttl, s, who, answer);
  }

  lemma OtherStepKeeps(ttl: nat, s: State, who: nat, answer: Answer)
    requires Inv(s) && Known(s) && who < |s.callers|
    requires !s.callers[who].Returned? && !s.callers[who].Waking? && !s.callers[who].Done?
    requires s.callers[who].TakeLock? ==> s.pending.Some?
    ensures Inv(StepOf(ttl, s, who, answer))
  {
    assert Fits(s, who);
    var t := StepOf(ttl, s, who, answer);
    if t != s {
      forall id | 0 <= id < |s.fetches| && s.fetches[id].leader == who
        ensures LeaderFits(t, id)
      {
        assert LeaderFits(s, id);
        LeadsOne(s, who, id);
      }
      QuietStep(s, t, who);
    }
  }

  lemma MoveKeepsInv(ttl: nat, s: State, m: Move)
    requires Inv(s) && Known(s)
    ensures Inv(After(ttl, s, m))
  {
    var t := After(ttl, s, m);
    match m
    case Step(who, answer) =>
      if who < |s.callers| {
        hide Inv;
        StepKeepsInv(ttl, s, who, answer);
      }
    case GiveUp(who) =>
      if t != s {
        WaitersLeadNone(s, who);
        QuietStep(s, t, who);
      }
    case Tick =>
      forall p | 0 <= p < |s.callers|
        ensures Fits(t, p)
      {
        assert Fits(s, p);
      }
      forall id | 0 <= id < |s.fetches|
        ensures LeaderFits(t, id)
      {
        assert LeaderFits(s, id);
      }
  }

  lemma MoveExtends(ttl: nat, s: State, m: Move)
    requires Inv(s) && Known(s)
    ensures Extends(s, After(ttl, s, m))
  {
    if m.Step? && m.who < |s.callers| {
      assert Fits(s, m.who);
    }
  }

  // ---------- runs ----------

  function Run(ttl: nat, s: State, moves: seq<Move>): (t: State)
    requires Inv(s)
    ensures Inv(t)
    decreases |moves|
  {
    if moves == [] then s
    else
      InvKnown(s);
      MoveKeepsInv(ttl, s, moves[0]);
      Run(ttl, After(ttl, s, moves[0]), moves[1..])
  }

  function One(ttl: nat, s: State, m: Move): (t: State)
    requires Inv(s)
    ensures Inv(t)
  {
    InvKnown(s);
    MoveKeepsInv(ttl, s, m);
    After(ttl, s, m)
  }

  /** `n` callers, nothing cached. */
  function Cold(n: nat): (s: State)
    ensures Inv(s)
  {
    State(seq(n, _ => CheckCache), None, [], None, 0, 0)
  }

  /** In every run: at most one upstream fetch is out; a waiter that returns uncancelled returns what its leader
      published and returns itself, after it was published; one that still waits on a fetch not yet woken has a leader
      on its way to waking it; and what is cached is a success that some fetch published. */
  lemma EveryRun(ttl: nat, n: nat, moves: seq<Move>, p: nat, q: nat)
    requires p < n && q < n
    ensures var s := Run(ttl, Cold(n), moves);
            && |s.callers| == n
            && (s.callers[p].Fetching? && s.callers[q].Fetching? ==> p == q)
            && (s.callers[p].Done? && s.callers[p].how.Waited? ==>
                  var id := s.callers[p].how.id;
                  && id < |s.fetches| && s.fetches[id].woken && s.fetches[id].published == Some(s.callers[p].result)
                  && s.fetches[id].leader < n && LedTo(s.callers[s.fetches[id].leader], id, s.callers[p].result))
            && (s.callers[p].Waiting? ==>
                  var id := s.callers[p].id;
                  && id < |s.fetches| && s.fetches[id].leader < n
                  && var leader := s.callers[s.fetches[id].leader];
                     s.fetches[id].woken || BeforePublishing(leader, id) || (leader.Waking? && leader.id == id))
            && (s.cache.Some? ==>
                  var e := s.cache.value;
                  e.source < |s.fetches| && s.fetches[e.source].published == Some(Ok(e.value)))
  {
    hide Run, Cold;
    RunCallers(ttl, Cold(n), moves);
    assert |Cold(n).callers| == n by { ColdCallers(n); }
    var s := Run(ttl, Cold(n), moves);
    assert Fits(s, p) && Fits(s, q);
    if s.callers[p].Done? && s.callers[p].how.Waited? {
      assert LeaderFits(s, s.callers[p].how.id);
    }
    if s.callers[p].Waiting? {
      assert LeaderFits(s, s.callers[p].id);
    }
  }

  lemma ColdCallers(n: nat)
    ensures |Cold(n).callers| == n
  {
  }

  lemma {:induction false} RunCallers(ttl: nat, s: State, moves: seq<Move>)
    requires Inv(s)
    ensures Extends(s, Run(ttl, s, moves))
    decreases |moves|
  {
    hide Inv, StepOf;
    if moves != [] {
      InvKnown(s);
      MoveKeepsInv(ttl, s, moves[0]);
      MoveExtends(ttl, s, moves[0]);
      RunCallers(ttl, After(ttl, s, moves[0]), moves[1..]);
    }
  }

  /** What a leader publishes stays as it is for the rest of the run. */
  lemma PublishedStays(ttl: nat, n: nat, before: seq<Move>, after: seq<Move>, id: nat)
    ensures var s := Run(ttl, Cold(n), before);
            id < |s.fetches| && s.fetches[id].published.Some? ==>
              var t := Run(ttl, s, after);
              id < |t.fetches| && t.fetches[id].published == s.fetches[id].published
  {
    hide Run, Cold, Inv;
    RunCallers(ttl, Run(ttl, Cold(n), before), after);
  }

  // ---------- what the upstream answered ----------

  /** What each fetch was told: the answer that came with the step in which its leader left the upstream call. */
  function Told(s: State, m: Move, told: map<nat, Answer>): map<nat, Answer> {
    if m.Step? && m.who < |s.callers| && s.callers[m.who].Fetching? then told[s.callers[m.who].id := m.answer] else told
  }

  function Answers(ttl: nat, s: State, moves: seq<Move>, told: map<nat, Answer>): map<nat, Answer>
    requires Inv(s)
    decreases |moves|
  {
    if moves == [] then told else Answers(ttl, One(ttl, s, moves[0]), moves[1..], Told(s, moves[0], told))
  }

  predicate ToldAs(told: map<nat, Answer>, id: nat, got: Answer) {
    id in told && told[id] == got
  }

  predicate ToldToSome(told: map<nat, Answer>, got: Answer) {
    exists id :: id in told && told[id] == got
  }

  predicate CallerTold(pc: PC, told: map<nat, Answer>) {
    match pc
    case Fetching(id) => id !in told
    case Returned(id, got) => ToldAs(told, id, got)
    case Waking(id, got) => ToldAs(told, id, got)
    case Writing(id, got) => ToldAs(told, id, got)
    case Done(Led(id), got) => ToldAs(told, id, got)
    case Done(Waited(id), got) => ToldAs(told, id, got)
    case Done(Hit, got) => got.Ok? && ToldToSome(told, got)
    case _ => true
  }

  predicate AllTold(s: State, told: map<nat, Answer>) {
    && (forall p :: 0 <= p < |s.callers| ==> CallerTold(s.callers[p], told))
    && (forall id :: 0 <= id < |s.fetches| && s.fetches[id].published.Some? ==>
          ToldAs(told, id, s.fetches[id].published.value))
    && (forall id :: id in told ==> id < |s.fetches|)
    && (s.cache.Some? ==> ToldAs(told, s.cache.value.source, Ok(s.cache.value.value)))
  }

  lemma CallerStaysTold(pc: PC, told: map<nat, Answer>, id: nat, answer: Answer)
    requires CallerTold(pc, told) && id !in told && pc != Fetching(id)
    ensures CallerTold(pc, told[id := answer])
  {
    if pc.Done? && pc.how.Hit? {
      var k :| k in told && told[k] == pc.result;
      assert told[id := answer][k] == pc.result;
    }
  }

  /** The caller that moves. */
  lemma OwnStepTold(ttl: nat, s: State, who: nat, answer: Answer, told: map<nat, Answer>)
    requires Inv(s) && Known(s) && AllTold(s, told) && who < |s.callers|
    ensures CallerTold(StepOf(ttl, s, who, answer).callers[who], Told(s, Step(who, answer), told))
  {
    assert Fits(s, who) && CallerTold(s.callers[who], told);
    if s.callers[who].CheckCache? && Standing(s) {
      assert told[s.cache.value.source] == Ok(s.cache.value.value);
    }
  }

  /** What is published, and what is cached. */
  lemma StepKeepsResults(ttl: nat, s: State, who: nat, answer: Answer, told: map<nat, Answer>)
    requires Inv(s) && Known(s) && AllTold(s, told) && who < |s.callers|
    ensures var t, after := StepOf(ttl, s, who, answer), Told(s, Step(who, answer), told);
            && (forall id :: 0 <= id < |t.fetches| && t.fetches[id].published.Some? ==>
                  ToldAs(after, id, t.fetches[id].published.value))
            && (forall id :: id in after ==> id < |t.fetches|)
            && (t.cache.Some? ==> ToldAs(after, t.cache.value.source, Ok(t.cache.value.value)))
  {
    hide Inv;
    assert Fits(s, who) by { CallerFits(s, who); }
    assert CallerTold(s.callers[who], told);
  }

  lemma CallerFits(s: State, p: nat)
    requires Inv(s) && p < |s.callers|
    ensures Fits(s, p)
  {
  }

  /** No two callers are at the same fetch. */
  lemma OneFetching(s: State, p: nat, q: nat)
    requires Inv(s) && p < |s.callers| && q < |s.callers|
    ensures s.callers[p].Fetching? && s.callers[q].Fetching? ==> p == q
  {
    assert Fits(s, p) && Fits(s, q);
  }

  lemma MoveKeepsTold(ttl: nat, s: State, m: Move, told: map<nat, Answer>)
    requires Inv(s) && Known(s) && AllTold(s, told)
    ensures AllTold(After(ttl, s, m), Told(s, m, told))
  {
    hide Inv, Fits, KnownAt, CallerTold, ToldAs;
    var t, after := After(ttl, s, m), Told(s, m, told);
    if m.Step? && m.who < |s.callers| {
      OwnStepTold(ttl, s, m.who, m.answer, told);
      StepKeepsResults(ttl, s, m.who, m.answer, told);
      StepMovesOne(ttl, s, m.who, m.answer);
      hide StepOf;
      forall p | 0 <= p < |s.callers| && p != m.who
        ensures CallerTold(t.callers[p], after)
      {
        StaysTold(s, m.who, p, m.answer, told);
      }
    } else {
      GaveUpTold(after);
    }
  }

  lemma StepMovesOne(ttl: nat, s: State, who: nat, answer: Answer)
    requires who < |s.callers| && KnownAt(s, who)
    ensures StepOf(ttl, s, who, answer).callers == s.callers[who := StepOf(ttl, s, who, answer).callers[who]]
  {
  }

  lemma StaysTold(s: State, who: nat, p: nat, answer: Answer, told: map<nat, Answer>)
    requires Inv(s) && AllTold(s, told) && who < |s.callers| && p < |s.callers| && p != who
    ensures CallerTold(s.callers[p], Told(s, Step(who, answer), told))
  {
    hide Inv;
    if s.callers[who].Fetching? {
      assert CallerTold(s.callers[who], told) && CallerTold(s.callers[p], told);
      OneFetching(s, who, p);
      CallerStaysTold(s.callers[p], told, s.callers[who].id, answer);
    }
  }

  lemma GaveUpTold(told: map<nat, Answer>)
    ensures CallerTold(Done(GaveUp, Err(Cancelled)), told)
  {
  }

  lemma {:induction false} RunKeepsTold(ttl: nat, s: State, moves: seq<Move>, told: map<nat, Answer>)
    requires Inv(s) && AllTold(s, told)
    ensures AllTold(Run(ttl, s, moves), Answers(ttl, s, moves, told))
    decreases |moves|
  {
    hide Inv, After, AllTold, Told;
    if moves != [] {
      InvKnown(s);
      MoveKeepsTold(ttl, s, moves[0], told);
      RunKeepsTold(ttl, One(ttl, s, moves[0]), moves[1..], Told(s, moves[0], told));
    }
  }

  /** In every run: what a fetch publishes, what its leader and its waiters return, and what the cache holds from it is
      what the upstream answered it; a hit too is a success the upstream gave to some fetch. So a failure is what leader
      and waiters get, and is never cached. */
  lemma UpstreamIsPassedOn(ttl: nat, n: nat, moves: seq<Move>, p: nat, id: nat)
    requires p < n
    ensures var s, told := Run(ttl, Cold(n), moves), Answers(ttl, Cold(n), moves, map[]);
            && |s.callers| == n
            && (id < |s.fetches| && s.fetches[id].published.Some? ==> ToldAs(told, id, s.fetches[id].published.value))
            && (s.callers[p].Done? ==>
                  match s.callers[p].how
                  case Led(fetch) => ToldAs(told, fetch, s.callers[p].result)
                  case Waited(fetch) => ToldAs(told, fetch, s.callers[p].result)
                  case Hit => s.callers[p].result.Ok? && ToldToSome(told, s.callers[p].result)
                  case GaveUp => s.callers[p].result == Err(Cancelled))
            && (s.cache.Some? ==> ToldAs(told, s.cache.value.source, Ok(s.cache.value.value)))
  {
    hide Run, Cold, Answers;
    RunCallers(ttl, Cold(n), moves);
    ColdCallers(n);
    NothingTold(n);
    RunKeepsTold(ttl, Cold(n), moves, map[]);
    var s := Run(ttl, Cold(n), moves);
    assert Fits(s, p) && CallerTold(s.callers[p], Answers(ttl, Cold(n), moves, map[]));
  }

  lemma NothingTold(n: nat)
    ensures AllTold(Cold(n), map[])
  {
  }

  // ---------- how long it is served ----------

  /** A write of the cache, and when. */
  datatype Write = Write(value: Markets, at: nat)

  /** The last success that a leader came to write. */
  function Wrote(s: State, m: Move, last: Option<Write>): Option<Write> {
    if m.Step? && m.who < |s.callers| && s.callers[m.who].Writing? && s.callers[m.who].got.Ok? then
      Some(Write(s.callers[m.who].got.value, s.now))
    else last
  }

  function LastWrite(ttl: nat, s: State, moves: seq<Move>, last: Option<Write>): Option<Write>
    requires Inv(s)
    decreases |moves|
  {
    if moves == [] then last else LastWrite(ttl, One(ttl, s, moves[0]), moves[1..], Wrote(s, moves[0], last))
  }

  predicate HoldsLast(ttl: nat, s: State, last: Option<Write>) {
    && (s.cache.Some? <==> last.Some?)
    && (last.Some? ==> s.cache.value.value == last.value.value && s.cache.value.expires == last.value.at + ttl)
  }

  lemma {:induction false} RunHoldsLast(ttl: nat, s: State, moves: seq<Move>, last: Option<Write>)
    requires Inv(s) && HoldsLast(ttl, s, last)
    ensures HoldsLast(ttl, Run(ttl, s, moves), LastWrite(ttl, s, moves, last))
    decreases |moves|
  {
    hide Inv;
    if moves != [] {
      InvKnown(s);
      RunHoldsLast(ttl, One(ttl, s, moves[0]), moves[1..], Wrote(s, moves[0], last));
    }
  }

  /** A caller about to look is answered exactly with the last listing written, if that was at most one lifetime ago; if
      there is none, it goes on to take the lock. */
  lemma ServedForOneLifetime(ttl: nat, n: nat, moves: seq<Move>, p: nat, answer: Answer)
    requires p < n
    ensures var s, last := Run(ttl, Cold(n), moves), LastWrite(ttl, Cold(n), moves, None);
            && |s.callers| == n && KnownAt(s, p)
            && (s.callers[p] == CheckCache ==>
                  var next := StepOf(ttl, s, p, answer).callers[p];
                  if last.Some? && s.now <= last.value.at + ttl then next == Done(Hit, Ok(last.value.value))
                  else next.TakeLock?)
  {
    hide Run, Cold, Inv, LastWrite;
    RunCallers(ttl, Cold(n), moves);
    ColdCallers(n);
    NothingWritten(ttl, n);
    RunHoldsLast(ttl, Cold(n), moves, None);
    var s := Run(ttl, Cold(n), moves);
    InvKnown(s);
    assert KnownAt(s, p);
  }

  lemma NothingWritten(ttl: nat, n: nat)
    ensures HoldsLast(ttl, Cold(n), None)
  {
  }

  // ---------- everybody returns ----------

  /** How many steps of its own a caller has left at most. */
  function StepsLeft(pc: PC): nat {
    match pc
    case CheckCache => 6
    case TakeLock(_) => 5
    case Fetching(_) => 4
    case Returned(_, _) => 3
    case Waking(_, _) => 2
    case Writing(_, _) => 1
    case Waiting(_) => 1
    case Done(_, _) => 0
  }

  /** In no run is anybody stuck: a step of a caller who has not returned leaves it fewer, unless it waits for a fetch
      whose waiters have not been woken; and then the leader of that fetch is one who is not waiting. */
  lemma NobodyIsStuck(ttl: nat, n: nat, moves: seq<Move>, p: nat, answer: Answer)
    requires p < n
    ensures var s := Run(ttl, Cold(n), moves);
            && |s.callers| == n && KnownAt(s, p)
            && var next := StepOf(ttl, s, p, answer).callers[p];
            && (StepsLeft(s.callers[p]) > 0 ==>
                  || StepsLeft(next) < StepsLeft(s.callers[p])
                  || (s.callers[p].Waiting? && !s.fetches[s.callers[p].id].woken
                      && var leader := s.fetches[s.callers[p].id].leader;
                         leader < n && StepsLeft(s.callers[leader]) > 1))
            && (s.callers[p].Waiting? && s.fetches[s.callers[p].id].woken ==> next.Done? && next.how.Waited?)
  {
    hide Run, Cold;
    RunCallers(ttl, Cold(n), moves);
    ColdCallers(n);
    var s := Run(ttl, Cold(n), moves);
    InvKnown(s);
    assert KnownAt(s, p) && Fits(s, p);
    if s.callers[p].Waiting? {
      assert LeaderFits(s, s.callers[p].id);
    }
  }

  /** A waiter whose request is cancelled returns at once, and nothing else changes. */
  lemma CancelledWaiterReturns(ttl: nat, s: State, p: nat)
    requires Known(s) && p < |s.callers|
    ensures After(ttl, s, GiveUp(p))
            == if s.callers[p].Waiting? then s.(callers := s.callers[p := Done(GaveUp, Err(Cancelled))]) else s
  {
  }

  function Ticks(moves: seq<Move>): nat
    decreases |moves|
  {
    if moves == [] then 0 else (if moves[0].Tick? then 1 else 0) + Ticks(moves[1..])
  }

  /** The clock counts the ticks, and nothing else moves it. */
  lemma {:induction false} ClockCounts(ttl: nat, s: State, moves: seq<Move>)
    requires Inv(s)
    ensures Run(ttl, s, moves).now == s.now + Ticks(moves)
    decreases |moves|
  {
    hide Inv;
    if moves != [] {
      InvKnown(s);
      ClockCounts(ttl, One(ttl, s, moves[0]), moves[1..]);
    }
  }

  // ---------- how often the upstream is asked ----------

  /** A caller found the cache cold before a standing entry was written. */
  predicate LookedAt(s: State, p: nat)
    requires p < |s.callers|
  {
    s.callers[p].TakeLock? ==>
      s.callers[p].seen <= s.writes && (Standing(s) ==> s.callers[p].seen <= s.cache.value.index)
  }

  predicate Looked(s: State) {
    && (s.cache.Some? ==> s.cache.value.index < s.writes)
    && (forall p :: 0 <= p < |s.callers| ==> LookedAt(s, p))
  }

  lemma MoveKeepsLooked(ttl: nat, s: State, m: Move)
    requires Known(s) && Looked(s)
    ensures Looked(After(ttl, s, m))
  {
    var t := After(ttl, s, m);
    forall p | 0 <= p < |t.callers|
      ensures LookedAt(t, p)
    {
      assert LookedAt(s, p);
    }
  }

  lemma {:induction false} RunKeepsLooked(ttl: nat, s: State, moves: seq<Move>)
    requires Inv(s) && Looked(s)
    ensures Looked(Run(ttl, s, moves))
    decreases |moves|
  {
    hide Inv, StepOf, Looked;
    if moves != [] {
      InvKnown(s);
      MoveKeepsInv(ttl, s, moves[0]);
      MoveKeepsLooked(ttl, s, moves[0]);
      RunKeepsLooked(ttl, After(ttl, s, moves[0]), moves[1..]);
    }
  }

  lemma ColdLooked(n: nat)
    ensures Looked(Cold(n))
  {
  }

  /** In every run a caller starts a fetch while an unexpired entry stands if and only if it looked before that entry
      was written and takes the lock with no flight pending: there is no second look under the lock. */
  lemma RefetchesExactly(ttl: nat, n: nat, moves: seq<Move>, p: nat, answer: Answer)
    requires p < n
    ensures var s := Run(ttl, Cold(n), moves);
            && |s.callers| == n && KnownAt(s, p)
            && (Standing(s) ==>
                  (|StepOf(ttl, s, p, answer).fetches| > |s.fetches|
                   <==> s.pending.None? && s.callers[p].TakeLock? && s.callers[p].seen <= s.cache.value.index))
  {
    hide Run, Cold, Inv;
    RunCallers(ttl, Cold(n), moves);
    ColdCallers(n);
    ColdLooked(n);
    RunKeepsLooked(ttl, Cold(n), moves);
    var s := Run(ttl, Cold(n), moves);
    InvKnown(s);
    assert KnownAt(s, p) && LookedAt(s, p);
  }

  lemma {:induction false} DoneStays(ttl: nat, s: State, moves: seq<Move>, p: nat)
    requires Inv(s) && p < |s.callers| && s.callers[p].Done?
    ensures p < |Run(ttl, s, moves).callers| && Run(ttl, s, moves).callers[p] == s.callers[p]
    decreases |moves|
  {
    hide Inv;
    if moves != [] {
      InvKnown(s);
      MoveKeepsInv(ttl, s, moves[0]);
      DoneStays(ttl, After(ttl, s, moves[0]), moves[1..], p);
    }
  }

  /** So a caller who looks while an entry stands is answered from it, and never fetches, whatever happens later. */
  lemma LookingInTimeNeverFetches(ttl: nat, n: nat, before: seq<Move>, after: seq<Move>, p: nat, answer: Answer)
    requires p < n
    ensures var s := Run(ttl, Cold(n), before);
            |s.callers| == n && (Standing(s) && s.callers[p] == CheckCache ==>
              var t := Run(ttl, s, [Step(p, answer)] + after);
              p < |t.callers| && t.callers[p] == Done(Hit, Ok(s.cache.value.value)))
  {
    hide Run, Cold, Inv;
    RunCallers(ttl, Cold(n), before);
    ColdCallers(n);
    var s := Run(ttl, Cold(n), before);
    if Standing(s) && s.callers[p] == CheckCache {
      RunOne(ttl, s, Step(p, answer), after);
      DoneStays(ttl, One(ttl, s, Step(p, answer)), after, p);
    }
  }

  /** Two fetches can so start within one lifetime: a leader gives up the flight before it writes the cache, and a
      caller who looked by then fetches again, before the write or, as here, after it. */
  lemma TwoFetchesInOneLifetime(ttl: nat, markets: Markets) returns (moves: seq<Move>)
    ensures var s := Run(ttl, Cold(2), moves);
            && |s.fetches| == 2 && s.now == 0 && |s.callers| == 2 && Standing(s)
            && s.fetches[0].published == Some(Ok(markets)) && s.callers[1] == Fetching(1)
  {
    var a, b := Step(0, Ok(markets)), Step(1, Ok(markets));
    moves := [b, a, a, a, a, a, a, b];
    var s0 := Cold(2);
    var s1 := One(ttl, s0, b);
    var s2 := One(ttl, s1, a);
    var s3 := One(ttl, s2, a);
    var s4 := One(ttl, s3, a);
    var s5 := One(ttl, s4, a);
    assert s5.fetches == [Fetch(0, Some(Ok(markets)), false)] && s5.pending.None?;
    var s6 := One(ttl, s5, a);
    var s7 := One(ttl, s6, a);
    assert s7.cache == Some(Entry(markets, ttl, 0, 0)) && s7.callers[1] == TakeLock(0);
    var s8 := One(ttl, s7, b);
    hide After, Inv;
    RunOne(ttl, s0, b, [a, a, a, a, a, a, b]);
    RunOne(ttl, s1, a, [a, a, a, a, a, b]);
    Six(ttl, s2, a, a, a, a, a, b);
    assert [b] + [a, a, a, a, a, a, b] == moves && [a] + [a, a, a, a, a, b] == [a, a, a, a, a, a, b];
  }

  lemma RunOne(ttl: nat, s: State, m: Move, rest: seq<Move>)
    requires Inv(s)
    ensures Run(ttl, s, [m] + rest) == Run(ttl, One(ttl, s, m), rest)
  {
    hide Inv, After;
    assert ([m] + rest)[1..] == rest;
  }

  lemma Six(ttl: nat, s: State, a: Move, b: Move, c: Move, d: Move, e: Move, f: Move)
    requires Inv(s)
    ensures Run(ttl, s, [a, b, c, d, e, f])
            == One(ttl, One(ttl, One(ttl, One(ttl, One(ttl, One(ttl, s, a), b), c), d), e), f)
  {
    hide Inv, One;
    var s1 := One(ttl, s, a);
    var s2 := One(ttl, s1, b);
    var s3 := One(ttl, s2, c);
    var s4 := One(ttl, s3, d);
    var s5 := One(ttl, s4, e);
    RunOne(ttl, s, a, [b, c, d, e, f]);
    RunOne(ttl, s1, b, [c, d, e, f]);
    RunOne(ttl, s2, c, [d, e, f]);
    RunOne(ttl, s3, d, [e, f]);
    RunOne(ttl, s4, e, [f]);
    RunOne(ttl, s5, f, []);
    assert [a] + [b, c, d, e, f] == [a, b, c, d, e, f];
    assert [b] + [c, d, e, f] == [b, c, d, e, f];
    assert [c] + [d, e, f] == [c, d, e, f];
    assert [d] + [e, f] == [d, e, f];
    assert [e] + [f] == [e, f];
    assert [f] + [] == [f];
  }
}
