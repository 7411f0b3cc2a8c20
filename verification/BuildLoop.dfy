/** Building a position over as many runs as it takes: each run works out from the recorded steps what the ones before
    it submitted, skips that, and goes on. What is submitted to the chain is kept beside the records. */
module BuildLoop {
  import LeveragePlan
  import QuoteHealth
  import opened Wrappers

  datatype Status = Running | Open | Failed | Reversing

  datatype Kind = Trade | Borrow | LegStart | Batch | Note

  /** What is put on the chain: a long's first buy, the trade of base left over by a failed run, and for each leg the
      borrow and the trade of its proceeds. */
  datatype Tx = Buy | CatchUp | Borrowed(leg: nat) | Sold(leg: nat)

  datatype Delivery = NotSent | Unsettled | Settled

  /** Why an operation did not go through: an error, a reversal that cancelled it, or the process going down. */
  datatype Cause = Error | Reversal | Restart

  datatype LegEvent = LegEvent(cancelSeen: bool, marketFound: bool, borrow: Delivery, trade: Delivery, cause: Cause)

  /** How a run comes about: a retry, which goes straight on, or a start or the recovery after a restart, which wait for
      the temp address to hold half the funding; `funded` says whether it does in time. */
  datatype Entry = Retry | Lifecycle(funded: bool)

  /** What one run meets. `stranded`: the temp address holds base worth trading when the run resumes. */
  datatype RunEvents = RunEvents(entry: Entry, keyOpens: bool, cancelSeen: bool, buy: Delivery, stranded: bool,
                                 catchUp: Delivery, cause: Cause, legs: seq<LegEvent>, cancelSeenLast: bool)

  datatype Progress = Progress(status: Status, steps: seq<Kind>, chain: seq<Tx>)
  {
    function Record(kinds: seq<Kind>): Progress {
      this.(steps := steps + kinds)
    }
  }

  function Count(kind: Kind, steps: seq<Kind>): nat
    decreases |steps|
  {
    if steps == [] then 0
    else Count(kind, steps[..|steps| - 1]) + if steps[|steps| - 1] == kind then 1 else 0
  }

  // ---------- one run ----------

  function Stop(p: Progress, cause: Cause): Progress {
    match cause
    case Error => p.(status := Failed).Record([Note])
    case Reversal => p.(status := Reversing)
    case Restart => p
  }

  /** A transaction is recorded as soon as it is submitted, before anything is known of its settling. */
  function Submitted(p: Progress, kind: Kind, tx: Tx, d: Delivery): Progress {
    if d == NotSent then p
    else p.(steps := p.steps + [kind, Batch] + (if d == Settled then [Batch] else []), chain := p.chain + [tx])
  }

  function LegRun(p: Progress, leg: nat, e: LegEvent): (Progress, bool) {
    if e.cancelSeen then (p.(status := Reversing), false)
    else
      var started := p.Record([LegStart]);
      if !e.marketFound then (Stop(started, e.cause), false)
      else
        var lent := Submitted(started, Borrow, Borrowed(leg), e.borrow);
        if e.borrow != Settled then (Stop(lent, e.cause), false)
        else
          var sold := Submitted(lent, Trade, Sold(leg), e.trade);
          if e.trade != Settled then (Stop(sold, e.cause), false) else (sold, true)
  }

  function LegsRun(p: Progress, leg: nat, legs: nat, e: RunEvents): Progress
    requires |e.legs| == legs
    decreases legs - leg
  {
    if leg >= legs then
      if e.cancelSeenLast then p.(status := Reversing) else p.(status := Open).Record([Note])
    else
      var (next, ok) := LegRun(p, leg, e.legs[leg]);
      if ok then LegsRun(next, leg + 1, legs, e) else next
  }

  function Completed(steps: seq<Kind>, legs: nat): (leg: nat)
    ensures leg <= legs
  {
    if Count(Borrow, steps) > legs then legs else Count(Borrow, steps)
  }

  /** What comes before the legs. */
  function Prepared(p: Progress, long: bool, legs: nat, e: RunEvents): (Progress, bool) {
    var traded := Count(Trade, p.steps) > 0;
    var noted := p.Record([Note]);
    if long && !traded then
      if e.cancelSeen then (noted.(status := Reversing), false)
      else
        var bought := Submitted(noted, Trade, Buy, e.buy);
        if e.buy != Settled then (Stop(bought, e.cause), false) else (bought, true)
    else if long && e.stranded then
      var caught := Submitted(noted, Trade, CatchUp, e.catchUp);
      if e.catchUp != Settled then (Stop(caught, e.cause), false) else (caught, true)
    else (noted, true)
  }

  function RunOnce(p: Progress, long: bool, legs: nat, e: RunEvents): Progress
    requires |e.legs| == legs
  {
    if !e.keyOpens then Stop(p, Error)
    else
      var (ready, ok) := Prepared(p, long, legs, e);
      if ok then LegsRun(ready, Completed(p.steps, legs), legs, e) else ready
  }

  // ---------- what the records and the chain keep ----------

  function KindOf(tx: Tx): Kind {
    if tx.Borrowed? then Borrow else Trade
  }

  /** How many transactions a kind of step stands for. */
  function Number(kind: Kind, chain: seq<Tx>): nat
    decreases |chain|
  {
    if chain == [] then 0
    else Number(kind, chain[..|chain| - 1]) + if KindOf(chain[|chain| - 1]) == kind then 1 else 0
  }

  /** Each borrow opens the leg after the ones borrowed for before. */
  predicate BorrowsInOrder(chain: seq<Tx>)
    decreases |chain|
  {
    chain == []
    || (var before, tx := chain[..|chain| - 1], chain[|chain| - 1];
        BorrowsInOrder(before) && (tx.Borrowed? ==> tx.leg == Number(Borrow, before)))
  }

  /** A long's first transaction is its buy, and nothing else is; a short buys nothing. */
  predicate BuysFirst(chain: seq<Tx>, long: bool) {
    forall i :: 0 <= i < |chain| ==> (chain[i] == Buy <==> long && i == 0)
  }

  /** Only a leg's own proceeds are traded in it, straight after its borrow. */
  predicate SalesFollow(chain: seq<Tx>) {
    forall i :: 0 <= i < |chain| && chain[i].Sold? ==> i > 0 && chain[i - 1] == Borrowed(chain[i].leg)
  }

  /** The steps record each transaction, and the borrows are in order, none beyond the plan's legs. */
  predicate Good(p: Progress, long: bool, legs: nat) {
    && Count(Trade, p.steps) == Number(Trade, p.chain) && Count(Borrow, p.steps) == Number(Borrow, p.chain) <= legs
    && BorrowsInOrder(p.chain) && BuysFirst(p.chain, long) && SalesFollow(p.chain)
    && (p.status == Open ==> Number(Borrow, p.chain) == legs)
  }

  // ---------- the job ----------

  class Job {
    const long: bool
    const legs: nat
    var status: Status
    var steps: seq<Kind>
    var chain: seq<Tx>

    constructor (long: bool, legs: nat)
      ensures this.long == long && this.legs == legs && Now() == Progress(Running, [], []) && Valid()
    {
      this.long, this.legs := long, legs;
      status, steps, chain := Running, [], [];
    }

    function Now(): Progress
      reads this
    {
      Progress(status, steps, chain)
    }

    predicate Valid()
      reads this
    {
      Good(Now(), long, legs)
    }

    method CountStepKind(kind: Kind) returns (n: nat)
      ensures n == Count(kind, steps)
    {
      n := 0;
      for i := 0 to |steps|
        invariant n == Count(kind, steps[..i])
      {
        assert steps[..i + 1][..i] == steps[..i];
        if steps[i] == kind { n := n + 1; }
      }
      assert steps[..|steps|] == steps;
    }

    method Submit(kind: Kind, tx: Tx, d: Delivery) returns (ok: bool)
      modifies this`steps, this`chain
      ensures Now() == Submitted(old(Now()), kind, tx, d)
      ensures ok <==> d == Settled
    {
      if d == NotSent { return false; }
      chain := chain + [tx];
      steps := steps + [kind];
      steps := steps + [Batch];
      assert steps == old(steps) + [kind, Batch];
      if d == Unsettled { return false; }
      steps := steps + [Batch];
      return true;
    }

    method FailOrUnwind(cause: Cause)
      modifies this`status, this`steps
      ensures Now() == Stop(old(Now()), cause)
    {
      match cause
      case Error =>
        status := Failed;
        steps := steps + [Note];
      case Reversal => status := Reversing;
      case Restart =>
    }

    /** A run of a job that is not open yet. */
    method Run(e: RunEvents)
      requires |e.legs| == legs && Valid() && status != Open
      modifies this
      ensures Now() == RunOnce(old(Now()), long, legs, e) && Valid()
    {
      hide Count, Submitted, Stop, BuysFirst, SalesFollow, BorrowsInOrder, Number;
      RunKeeps(Now(), long, legs, e);
      if !e.keyOpens {
        FailOrUnwind(Error);
        return;
      }
      var trades := CountStepKind(Trade);
      var completedLegs := CountStepKind(Borrow);
      if completedLegs > legs { completedLegs := legs; }
      var resuming := trades > 0 || completedLegs > 0;
      steps := steps + [Note];
      if long && trades == 0 {
        if e.cancelSeen {
          status := Reversing;
          return;
        }
        var ok := Submit(Trade, Buy, e.buy);
        if !ok {
          FailOrUnwind(e.cause);
          return;
        }
      } else if resuming && long && e.stranded {
        var ok := Submit(Trade, CatchUp, e.catchUp);
        if !ok {
          FailOrUnwind(e.cause);
          return;
        }
      }
      ghost var ready := Now();
      assert Prepared(old(Now()), long, legs, e) == (ready, true);
      PreparedKeeps(old(Now()), long, legs, e);
      BuildLegs(completedLegs, e);
    }

    /** At every loop head the index is the number of borrows recorded. */
    method BuildLegs(completedLegs: nat, e: RunEvents)
      requires |e.legs| == legs && Valid() && status != Open && (long ==> chain != [])
      requires completedLegs == Count(Borrow, steps)
      modifies this
      ensures Now() == LegsRun(old(Now()), completedLegs, legs, e)
    {
      hide Submitted, Stop, Count, BuysFirst, SalesFollow, BorrowsInOrder, Number;
      for i := completedLegs to legs
        invariant LegsRun(Now(), i, legs, e) == LegsRun(old(Now()), completedLegs, legs, e)
        invariant i == Count(Borrow, steps)
        invariant Valid() && status != Open && (long ==> chain != [])
      {
        var leg := e.legs[i];
        LegKeeps(Now(), i, leg, long, legs);
        if leg.cancelSeen {
          status := Reversing;
          return;
        }
        steps := steps + [LegStart];
        if !leg.marketFound {
          FailOrUnwind(leg.cause);
          return;
        }
        var lent := Submit(Borrow, Borrowed(i), leg.borrow);
        if !lent {
          FailOrUnwind(leg.cause);
          return;
        }
        var sold := Submit(Trade, Sold(i), leg.trade);
        if !sold {
          FailOrUnwind(leg.cause);
          return;
        }
      }
      if e.cancelSeenLast {
        status := Reversing;
        return;
      }
      status := Open;
      steps := steps + [Note];
    }
  }

  // ---------- runs keep it ----------

  lemma {:induction false} CountAdd(kind: Kind, steps: seq<Kind>, more: seq<Kind>)
    ensures Count(kind, steps + more) == Count(kind, steps) + Count(kind, more)
    decreases |more|
  {
    if more == [] {
      assert steps + more == steps;
    } else {
      var n := |more| - 1;
      CountAdd(kind, steps, more[..n]);
      assert (steps + more)[..|steps| + n] == steps + more[..n];
    }
  }

  lemma CountFew(kind: Kind, a: Kind, b: Kind)
    ensures Count(kind, [a]) == if a == kind then 1 else 0
    ensures Count(kind, [a, b]) == (if a == kind then 1 else 0) + if b == kind then 1 else 0
  {
    assert [a][..0] == [];
    assert [a, b][..1] == [a];
  }

  /** Steps that stand for no transaction change nothing. */
  lemma Unrecorded(p: Progress, step: Kind, long: bool, legs: nat)
    requires Good(p, long, legs) && step != Trade && step != Borrow
    ensures Good(p.Record([step]), long, legs) && p.Record([step]).chain == p.chain
    ensures Count(Borrow, p.Record([step]).steps) == Count(Borrow, p.steps)
    ensures Count(Trade, p.Record([step]).steps) == Count(Trade, p.steps)
  {
    hide Count, Number, BorrowsInOrder, BuysFirst, SalesFollow;
    CountAdd(Trade, p.steps, [step]);
    CountAdd(Borrow, p.steps, [step]);
    CountFew(Trade, step, step);
    CountFew(Borrow, step, step);
  }

  /** What may be submitted next. */
  predicate Fits(p: Progress, tx: Tx, long: bool, legs: nat) {
    match tx
    case Buy => long && p.chain == []
    case CatchUp => long && p.chain != []
    case Borrowed(leg) => leg == Number(Borrow, p.chain) < legs && (long ==> p.chain != [])
    case Sold(leg) => p.chain != [] && p.chain[|p.chain| - 1] == Borrowed(leg)
  }

  lemma SubmittedCounts(p: Progress, tx: Tx, d: Delivery, kind: Kind)
    requires d != NotSent && kind != Batch
    ensures var after := Submitted(p, KindOf(tx), tx, d);
            Count(kind, after.steps) == Count(kind, p.steps) + if KindOf(tx) == kind then 1 else 0
  {
    var k := KindOf(tx);
    CountAdd(kind, p.steps, [k, Batch]);
    CountFew(kind, k, Batch);
    CountAdd(kind, p.steps + [k, Batch], [Batch]);
    CountFew(kind, Batch, Batch);
    hide Count;
    assert p.steps + [k, Batch] + [] == p.steps + [k, Batch];
  }

  /** What a transaction leaves in the records: a step of its kind and one that it was sent, once it is submitted, and
      one more once it has settled. */
  lemma SubmissionRecords(p: Progress, kind: Kind, tx: Tx, d: Delivery)
    requires kind == Trade || kind == Borrow
    ensures var after := Submitted(p, kind, tx, d);
            && Count(kind, after.steps) == Count(kind, p.steps) + (if d == NotSent then 0 else 1)
            && Count(Batch, after.steps)
               == Count(Batch, p.steps) + match d case NotSent => 0 case Unsettled => 1 case Settled => 2
  {
    if d != NotSent {
      CountAdd(kind, p.steps, [kind, Batch]);
      CountFew(kind, kind, Batch);
      CountAdd(kind, p.steps + [kind, Batch], [Batch]);
      CountFew(kind, Batch, Batch);
      CountAdd(Batch, p.steps, [kind, Batch]);
      CountFew(Batch, kind, Batch);
      CountAdd(Batch, p.steps + [kind, Batch], [Batch]);
      CountFew(Batch, Batch, Batch);
      hide Count;
      assert p.steps + [kind, Batch] + [] == p.steps + [kind, Batch];
    }
  }

  lemma ChainGrows(chain: seq<Tx>, tx: Tx)
    ensures Number(Trade, chain + [tx]) == Number(Trade, chain) + if KindOf(tx) == Trade then 1 else 0
    ensures Number(Borrow, chain + [tx]) == Number(Borrow, chain) + if KindOf(tx) == Borrow then 1 else 0
    ensures BorrowsInOrder(chain + [tx])
            <==> BorrowsInOrder(chain) && (tx.Borrowed? ==> tx.leg == Number(Borrow, chain))
  {
    assert (chain + [tx])[..|chain|] == chain;
  }

  lemma SubmittedKeeps(p: Progress, tx: Tx, d: Delivery, long: bool, legs: nat)
    requires Good(p, long, legs) && Fits(p, tx, long, legs) && p.status != Open
    ensures var after := Submitted(p, KindOf(tx), tx, d);
            && Good(after, long, legs) && after.status == p.status
            && after.chain == (if d == NotSent then p.chain else p.chain + [tx])
  {
    hide Count, Number, BorrowsInOrder;
    if d != NotSent {
      SubmittedCounts(p, tx, d, Trade);
      SubmittedCounts(p, tx, d, Borrow);
      ChainGrows(p.chain, tx);
    }
  }

  lemma StopKeeps(p: Progress, cause: Cause, long: bool, legs: nat)
    requires Good(p, long, legs) && p.status != Open
    ensures Good(Stop(p, cause), long, legs) && Stop(p, cause).chain == p.chain && Stop(p, cause).status != Open
  {
    hide Count, Number, BorrowsInOrder, BuysFirst, SalesFollow;
    Unrecorded(p, Note, long, legs);
  }

  lemma LegKeeps(p: Progress, leg: nat, e: LegEvent, long: bool, legs: nat)
    requires Good(p, long, legs) && p.status != Open && leg == Count(Borrow, p.steps) < legs && (long ==> p.chain != [])
    ensures var (next, ok) := LegRun(p, leg, e);
            && Good(next, long, legs) && next.status != Open
            && (ok ==> Count(Borrow, next.steps) == leg + 1 && next.chain == p.chain + [Borrowed(leg), Sold(leg)])
  {
    hide Count, Number, BorrowsInOrder, BuysFirst, SalesFollow, Submitted, Stop;
    Unrecorded(p, LegStart, long, legs);
    var started := p.Record([LegStart]);
    StopKeeps(started, e.cause, long, legs);
    SubmittedKeeps(started, Borrowed(leg), e.borrow, long, legs);
    var lent := Submitted(started, Borrow, Borrowed(leg), e.borrow);
    StopKeeps(lent, e.cause, long, legs);
    if !e.cancelSeen && e.marketFound && e.borrow == Settled {
      ChainGrows(p.chain, Borrowed(leg));
      SubmittedKeeps(lent, Sold(leg), e.trade, long, legs);
      var sold := Submitted(lent, Trade, Sold(leg), e.trade);
      StopKeeps(sold, e.cause, long, legs);
      ChainGrows(lent.chain, Sold(leg));
      assert p.chain + [Borrowed(leg)] + [Sold(leg)] == p.chain + [Borrowed(leg), Sold(leg)];
    }
  }

  lemma {:induction false} LegsKeep(p: Progress, leg: nat, long: bool, legs: nat, e: RunEvents)
    requires Good(p, long, legs) && p.status != Open && leg == Count(Borrow, p.steps) && (long ==> p.chain != [])
    requires |e.legs| == legs
    ensures Good(LegsRun(p, leg, legs, e), long, legs)
    decreases legs - leg
  {
    hide Count, Number, BorrowsInOrder, BuysFirst, SalesFollow, LegRun;
    if leg < legs {
      LegKeeps(p, leg, e.legs[leg], long, legs);
      var (next, ok) := LegRun(p, leg, e.legs[leg]);
      if ok {
        LegsKeep(next, leg + 1, long, legs, e);
      }
    } else {
      Unrecorded(p, Note, long, legs);
    }
  }

  lemma NumberNeedsOne(chain: seq<Tx>)
    ensures Number(Trade, chain) > 0 || Number(Borrow, chain) > 0 <==> chain != []
  {
  }

  /** A resumed run finds what the records say: no trade recorded means nothing was ever submitted for a long. */
  lemma Untraded(p: Progress, long: bool, legs: nat)
    requires Good(p, long, legs) && long
    ensures Count(Trade, p.steps) == 0 <==> p.chain == []
  {
    hide Count, BorrowsInOrder, SalesFollow;
    NumberNeedsOne(p.chain);
    if p.chain != [] {
      BuyCounts(p.chain);
    }
  }

  lemma {:induction false} BuyCounts(chain: seq<Tx>)
    requires chain != [] && chain[0] == Buy
    ensures Number(Trade, chain) > 0
    decreases |chain|
  {
    if |chain| > 1 {
      BuyCounts(chain[..|chain| - 1]);
    }
  }

  lemma PreparedKeeps(p: Progress, long: bool, legs: nat, e: RunEvents)
    requires Good(p, long, legs) && p.status != Open
    ensures var (ready, ok) := Prepared(p, long, legs, e);
            && Good(ready, long, legs) && ready.status != Open
            && (ok ==> Count(Borrow, ready.steps) == Completed(p.steps, legs) && (long ==> ready.chain != []))
  {
    hide Count, Number, BorrowsInOrder, BuysFirst, SalesFollow, Submitted, Stop;
    Unrecorded(p, Note, long, legs);
    var noted := p.Record([Note]);
    if long {
      Untraded(p, long, legs);
      var tx := if p.chain == [] then Buy else CatchUp;
      var d := if p.chain == [] then e.buy else e.catchUp;
      SubmittedKeeps(noted, tx, d, long, legs);
      ChainGrows(p.chain, tx);
      StopKeeps(Submitted(noted, Trade, tx, d), e.cause, long, legs);
    }
  }

  lemma RunKeeps(p: Progress, long: bool, legs: nat, e: RunEvents)
    requires Good(p, long, legs) && p.status != Open && |e.legs| == legs
    ensures Good(RunOnce(p, long, legs, e), long, legs)
  {
    hide Count, Number, BorrowsInOrder, BuysFirst, SalesFollow, Prepared, LegsRun, Stop, Completed;
    StopKeeps(p, Error, long, legs);
    PreparedKeeps(p, long, legs, e);
    var (ready, ok) := Prepared(p, long, legs, e);
    if e.keyOpens && ok {
      LegsKeep(ready, Completed(p.steps, legs), long, legs, e);
    }
  }

  // ---------- whole histories ----------

  /** The job as a run finds it, if there is one. Only a failed job may be retried, which notes that it resumes; a start
      takes up a failed job or one not yet begun, and a recovery one left running by a restart, if the funding is
      there. */
  function Entered(p: Progress, entry: Entry): Option<Progress> {
    match entry
    case Retry => if p.status == Failed then Some(p.(status := Running).Record([Note])) else None
    case Lifecycle(funded) =>
      if funded && (p.status == Running || p.status == Failed) then Some(p.(status := Running)) else None
  }

  function TakenUp(p: Progress, long: bool, legs: nat, e: RunEvents): Progress
    requires |e.legs| == legs
  {
    match Entered(p, e.entry)
    case None => p
    case Some(begun) => RunOnce(begun, long, legs, e)
  }

  function History(p: Progress, long: bool, legs: nat, es: seq<RunEvents>): Progress
    requires forall i :: 0 <= i < |es| ==> |es[i].legs| == legs
    decreases |es|
  {
    if es == [] then p else History(TakenUp(p, long, legs, es[0]), long, legs, es[1..])
  }

  /** A job left running by a restart goes on exactly when the temp address holds half its funding again: retries refuse
      it, and starts and recoveries wait in vain for what was sold or lent. */
  lemma {:induction false} WhenARestartGoesOn(p: Progress, long: bool, legs: nat, es: seq<RunEvents>)
    requires p.status == Running && forall i :: 0 <= i < |es| ==> |es[i].legs| == legs
    ensures (forall i :: 0 <= i < |es| ==> es[i].entry != Lifecycle(true)) ==> History(p, long, legs, es) == p
    ensures forall i :: 0 <= i < |es| && es[i].entry == Lifecycle(true)
                        && (forall k :: 0 <= k < i ==> es[k].entry != Lifecycle(true)) ==>
                          History(p, long, legs, es) == History(RunOnce(p, long, legs, es[i]), long, legs, es[i + 1..])
    decreases |es|
  {
    hide RunOnce;
    if es != [] && es[0].entry != Lifecycle(true) {
      var rest := es[1..];
      WhenARestartGoesOn(p, long, legs, rest);
      forall i | 0 <= i < |es| && es[i].entry == Lifecycle(true)
                 && (forall k :: 0 <= k < i ==> es[k].entry != Lifecycle(true))
        ensures History(p, long, legs, es) == History(RunOnce(p, long, legs, es[i]), long, legs, es[i + 1..])
      {
        assert rest[i - 1] == es[i] && rest[i..] == es[i + 1..];
      }
    }
  }

  /** A job that is open or being reversed is never run again. */
  lemma {:induction false} DoneStays(p: Progress, long: bool, legs: nat, es: seq<RunEvents>)
    requires (p.status == Open || p.status == Reversing) && forall i :: 0 <= i < |es| ==> |es[i].legs| == legs
    ensures History(p, long, legs, es) == p
    decreases |es|
  {
    if es != [] {
      DoneStays(p, long, legs, es[1..]);
    }
  }

  /** A failed job is run again by a retry, which notes it, and by a start that finds the funding there; by no other. */
  lemma FailedIsTakenUp(p: Progress, long: bool, legs: nat, es: seq<RunEvents>)
    requires p.status == Failed && es != [] && forall i :: 0 <= i < |es| ==> |es[i].legs| == legs
    ensures History(p, long, legs, es)
            == History(match es[0].entry
                       case Retry => RunOnce(Progress(Running, p.steps + [Note], p.chain), long, legs, es[0])
                       case Lifecycle(true) => RunOnce(Progress(Running, p.steps, p.chain), long, legs, es[0])
                       case Lifecycle(false) => p, long, legs, es[1..])
  {
    hide RunOnce;
  }

  const NEW := Progress(Running, [], [])

  lemma {:induction false} HistoryKeeps(p: Progress, long: bool, legs: nat, es: seq<RunEvents>)
    requires Good(p, long, legs)
    requires forall i :: 0 <= i < |es| ==> |es[i].legs| == legs
    ensures Good(History(p, long, legs, es), long, legs)
    decreases |es|
  {
    hide Count, Number, BorrowsInOrder, BuysFirst, SalesFollow, RunOnce;
    if es != [] {
      TakenUpKeeps(p, long, legs, es[0]);
      HistoryKeeps(TakenUp(p, long, legs, es[0]), long, legs, es[1..]);
    }
  }

  lemma EnteredKeeps(p: Progress, entry: Entry, long: bool, legs: nat)
    requires Good(p, long, legs) && Entered(p, entry).Some?
    ensures var begun := Entered(p, entry).value;
            Good(begun, long, legs) && begun.status == Running && begun.chain == p.chain
  {
    hide Count, Number, BorrowsInOrder, BuysFirst, SalesFollow;
    Unrecorded(p.(status := Running), Note, long, legs);
  }

  lemma TakenUpKeeps(p: Progress, long: bool, legs: nat, e: RunEvents)
    requires Good(p, long, legs) && |e.legs| == legs
    ensures Good(TakenUp(p, long, legs, e), long, legs)
  {
    hide Good, RunOnce, Entered;
    if Entered(p, e.entry).Some? {
      EnteredKeeps(p, e.entry, long, legs);
      RunKeeps(Entered(p, e.entry).value, long, legs, e);
    }
  }

  /** A leg borrowed for is borrowed for once. */
  lemma {:induction false} OnceEach(chain: seq<Tx>, leg: nat)
    requires BorrowsInOrder(chain)
    ensures (exists i :: 0 <= i < |chain| && chain[i] == Borrowed(leg)) <==> leg < Number(Borrow, chain)
    ensures forall i, j :: 0 <= i < j < |chain| && chain[i] == Borrowed(leg) ==> chain[j] != Borrowed(leg)
    decreases |chain|
  {
    if chain != [] {
      var n := |chain| - 1;
      OnceEach(chain[..n], leg);
      assert forall i :: 0 <= i < n ==> chain[i] == chain[..n][i];
    }
  }

  /** Through any failures, restarts and retries: a leg is borrowed for at most once, in order, and none beyond the
      plan; a long buys at most once, before anything else; and a position that is called open has exactly one
      borrow for every leg. */
  lemma EveryHistory(long: bool, legs: nat, es: seq<RunEvents>, leg: nat)
    requires forall i :: 0 <= i < |es| ==> |es[i].legs| == legs
    ensures var p := History(NEW, long, legs, es);
            var chain := p.chain;
            && BuysFirst(chain, long) && SalesFollow(chain)
            && (forall i, j :: 0 <= i < j < |chain| && chain[i] == Borrowed(leg) ==> chain[j] != Borrowed(leg))
            && (Borrowed(leg) in chain ==> leg < legs && forall k :: 0 <= k < leg ==> Borrowed(k) in chain)
            && (p.status == Open ==> (Borrowed(leg) in chain <==> leg < legs))
  {
    hide History, Count, BorrowsInOrder, BuysFirst, SalesFollow, Number;
    NewIsGood(long, legs);
    HistoryKeeps(NEW, long, legs, es);
    var chain := History(NEW, long, legs, es).chain;
    OnceEach(chain, leg);
    forall k | 0 <= k < leg
      ensures Borrowed(k) in chain <==> k < Number(Borrow, chain)
    {
      OnceEach(chain, k);
    }
  }

  lemma NewIsGood(long: bool, legs: nat)
    ensures Good(NEW, long, legs)
  {
  }

  // ---------- an uninterrupted run ----------

  /** Every operation settles and nobody cancels. */
  predicate Smooth(e: RunEvents) {
    && e.keyOpens && !e.cancelSeen && e.buy == Settled && !e.cancelSeenLast
    && forall i :: 0 <= i < |e.legs| ==> SmoothLeg(e.legs[i])
  }

  lemma {:induction false} SmoothLegs(p: Progress, leg: nat, legs: nat, e: RunEvents)
    requires |e.legs| == legs && Smooth(e) && leg <= legs
    ensures var after := LegsRun(p, leg, legs, e);
            && after.status == Open && |after.chain| == |p.chain| + 2 * (legs - leg)
            && Count(Trade, after.steps) == Count(Trade, p.steps) + legs - leg
            && Count(Borrow, after.steps) == Count(Borrow, p.steps) + legs - leg
    decreases legs - leg
  {
    hide Count;
    CountNote(p, Note);
    if leg < legs {
      CountNote(p, LegStart);
      var started := p.Record([LegStart]);
      SubmittedCounts(started, Borrowed(leg), Settled, Trade);
      SubmittedCounts(started, Borrowed(leg), Settled, Borrow);
      var lent := Submitted(started, Borrow, Borrowed(leg), Settled);
      SubmittedCounts(lent, Sold(leg), Settled, Trade);
      SubmittedCounts(lent, Sold(leg), Settled, Borrow);
      var next := LegRun(p, leg, e.legs[leg]).0;
      assert next == Submitted(lent, Trade, Sold(leg), Settled);
      hide Submitted;
      SmoothLegs(next, leg + 1, legs, e);
    }
  }

  lemma CountNote(p: Progress, step: Kind)
    requires step != Trade && step != Borrow
    ensures Count(Trade, p.Record([step]).steps) == Count(Trade, p.steps)
    ensures Count(Borrow, p.Record([step]).steps) == Count(Borrow, p.steps)
  {
    CountAdd(Trade, p.steps, [step]);
    CountAdd(Borrow, p.steps, [step]);
    CountFew(Trade, step, step);
    CountFew(Borrow, step, step);
  }

  /** A first run that meets no trouble opens the position and records exactly as many trades and borrows as the
      quote counted transactions. */
  lemma SmoothRunMatchesQuote(m: QuoteHealth.Market, req: QuoteHealth.Request, plan: LeveragePlan.Plan, e: RunEvents)
    requires req.amount > 0.0 && |e.legs| == |plan.legs| && Smooth(e)
    ensures var p := RunOnce(NEW, req.direction == LeveragePlan.Long, |plan.legs|, e);
            var quoted := QuoteHealth.QuoteOf(m, req, plan).txCount;
            && p.status == Open && |p.chain| == quoted
            && Count(Trade, p.steps) + Count(Borrow, p.steps) == quoted
  {
    hide Count, Prepared, LegsRun, QuoteHealth.FeeReserveFor, QuoteHealth.LiquidationPrice;
    var long, legs := req.direction == LeveragePlan.Long, |plan.legs|;
    SmoothStart(long, legs, e);
    SmoothLegs(Prepared(NEW, long, legs, e).0, 0, legs, e);
  }

  lemma SmoothStart(long: bool, legs: nat, e: RunEvents)
    requires Smooth(e)
    ensures var (ready, ok) := Prepared(NEW, long, legs, e);
            var trades := if long then 1 else 0;
            && ok && |ready.chain| == trades && Count(Trade, ready.steps) == trades && Count(Borrow, ready.steps) == 0
            && Completed(NEW.steps, legs) == 0
  {
    var noted := NEW.Record([Note]);
    CountNote(NEW, Note);
    SubmittedCounts(noted, Buy, Settled, Trade);
    SubmittedCounts(noted, Buy, Settled, Borrow);
    CountZero();
    hide Count;
  }

  /** What a leg puts on the chain. */
  function LegTxs(leg: nat, e: LegEvent): seq<Tx> {
    if e.cancelSeen || !e.marketFound || e.borrow == NotSent then []
    else if e.borrow == Unsettled || e.trade == NotSent then [Borrowed(leg)]
    else [Borrowed(leg), Sold(leg)]
  }

  lemma LegPuts(p: Progress, leg: nat, e: LegEvent)
    ensures var (next, ok) := LegRun(p, leg, e);
            && next.chain == p.chain + LegTxs(leg, e) && (ok ==> LegTxs(leg, e) == [Borrowed(leg), Sold(leg)])
  {
    assert p.chain + [Borrowed(leg)] + [Sold(leg)] == p.chain + [Borrowed(leg), Sold(leg)];
  }

  // ---------- where a run ends ----------

  predicate SmoothLeg(e: LegEvent) {
    !e.cancelSeen && e.marketFound && e.borrow == Settled && e.trade == Settled
  }

  /** What an operation that did not go through makes of the job. */
  predicate LeftAs(before: Status, after: Status, cause: Cause) {
    && (cause == Error ==> after == Failed) && (cause == Reversal ==> after == Reversing)
    && (cause == Restart ==> after == before)
  }

  function Sent(d: Delivery, tx: Tx): seq<Tx> {
    if d == NotSent then [] else [tx]
  }

  /** A long that has nothing on the chain buys first; one that has sells what is stranded. */
  predicate Buys(p: Progress, long: bool) {
    long && p.chain == []
  }

  predicate Catches(p: Progress, long: bool, e: RunEvents) {
    long && p.chain != [] && e.stranded
  }

  predicate GetsToLegs(p: Progress, long: bool, e: RunEvents) {
    && e.keyOpens && (Buys(p, long) ==> !e.cancelSeen && e.buy == Settled)
    && (Catches(p, long, e) ==> e.catchUp == Settled)
  }

  function Before(p: Progress, long: bool, e: RunEvents): seq<Tx> {
    if Buys(p, long) then [Buy] else if Catches(p, long, e) then [CatchUp] else []
  }

  /** The first leg that the run comes to. */
  function FirstOpen(p: Progress): nat {
    Number(Borrow, p.chain)
  }

  /** The run comes to a leg: every leg before it, from the first on, goes through. */
  predicate ComesTo(p: Progress, long: bool, legs: nat, e: RunEvents, j: nat)
    requires |e.legs| == legs
  {
    GetsToLegs(p, long, e) && FirstOpen(p) <= j <= legs && forall k :: FirstOpen(p) <= k < j ==> SmoothLeg(e.legs[k])
  }

  /** Legs that go through, on the chain. */
  function LegsOnChain(from: nat, to: nat): seq<Tx>
    decreases to - from
  {
    if from >= to then [] else [Borrowed(from), Sold(from)] + LegsOnChain(from + 1, to)
  }

  lemma LegEnds(p: Progress, leg: nat, e: LegEvent)
    ensures var (next, ok) := LegRun(p, leg, e);
            && (ok <==> SmoothLeg(e)) && next.chain == p.chain + LegTxs(leg, e)
            && (ok ==> next.status == p.status)
            && (e.cancelSeen ==> next.status == Reversing)
            && (!ok && !e.cancelSeen ==> LeftAs(p.status, next.status, e.cause))
  {
    LegPuts(p, leg, e);
  }

  lemma {:induction false} LegsEnd(p: Progress, leg: nat, legs: nat, e: RunEvents, j: nat)
    requires |e.legs| == legs && leg <= j <= legs && forall k :: leg <= k < j ==> SmoothLeg(e.legs[k])
    ensures var after := LegsRun(p, leg, legs, e);
            if j == legs then
              && after.chain == p.chain + LegsOnChain(leg, legs)
              && after.status == if e.cancelSeenLast then Reversing else Open
            else
              !SmoothLeg(e.legs[j]) ==>
                && after.chain == p.chain + LegsOnChain(leg, j) + LegTxs(j, e.legs[j])
                && (e.legs[j].cancelSeen ==> after.status == Reversing)
                && (!e.legs[j].cancelSeen ==> LeftAs(p.status, after.status, e.legs[j].cause))
    decreases legs - leg
  {
    hide LegRun, SmoothLeg, LegTxs;
    NoneOnChain(p.chain, leg);
    if leg < legs {
      LegEnds(p, leg, e.legs[leg]);
      if leg < j {
        var next := LegRun(p, leg, e.legs[leg]).0;
        LegsEnd(next, leg + 1, legs, e, j);
        SmoothOnChain(p.chain, leg, j, e.legs[leg]);
        assert next.chain + LegsOnChain(leg + 1, j) == p.chain + LegsOnChain(leg, j);
      }
    }
  }

  lemma NoneOnChain(chain: seq<Tx>, leg: nat)
    ensures chain + LegsOnChain(leg, leg) == chain
  {
  }

  lemma SmoothOnChain(chain: seq<Tx>, leg: nat, j: nat, e: LegEvent)
    requires leg < j && SmoothLeg(e)
    ensures chain + LegTxs(leg, e) + LegsOnChain(leg + 1, j) == chain + LegsOnChain(leg, j)
  {
    hide LegsOnChain;
    OneOnChain(leg, j);
    assert LegTxs(leg, e) == [Borrowed(leg), Sold(leg)];
  }

  lemma OneOnChain(leg: nat, j: nat)
    requires leg < j
    ensures LegsOnChain(leg, j) == [Borrowed(leg), Sold(leg)] + LegsOnChain(leg + 1, j)
  {
  }

  /** How a run begins. */
  lemma StartEnds(p: Progress, long: bool, legs: nat, e: RunEvents)
    requires Good(p, long, legs)
    ensures var (ready, ok) := Prepared(p, long, legs, e);
            && (e.keyOpens ==> (ok <==> GetsToLegs(p, long, e)))
            && (ok ==> ready.chain == p.chain + Before(p, long, e) && ready.status == p.status)
            && (!ok && Buys(p, long) && e.cancelSeen ==> ready.chain == p.chain && ready.status == Reversing)
            && (!ok && Buys(p, long) && !e.cancelSeen ==>
                  ready.chain == p.chain + Sent(e.buy, Buy) && LeftAs(p.status, ready.status, e.cause))
            && (!ok && Catches(p, long, e) ==>
                  ready.chain == p.chain + Sent(e.catchUp, CatchUp) && LeftAs(p.status, ready.status, e.cause))
            && Completed(p.steps, legs) == FirstOpen(p)
  {
    hide Count, Number, BorrowsInOrder, BuysFirst, SalesFollow;
    if long {
      Untraded(p, long, legs);
    }
  }

  /** Where a run ends, for every place it can: if the key does not open; if the first operation does not go through, or
      a cancel is seen before it; at the first leg that sees a cancel or does not go through; or after the last leg.
      What is on the chain then is what it was and what was submitted up to there, and no more. */
  lemma RunEnds(p: Progress, long: bool, legs: nat, e: RunEvents, j: nat)
    requires Good(p, long, legs) && p.status != Open && |e.legs| == legs
    ensures var after := RunOnce(p, long, legs, e);
            var begun := p.chain + Before(p, long, e);
            && (!e.keyOpens ==> after.status == Failed && after.chain == p.chain)
            && (e.keyOpens && Buys(p, long) && e.cancelSeen ==> after.status == Reversing && after.chain == p.chain)
            && (e.keyOpens && Buys(p, long) && !e.cancelSeen && e.buy != Settled ==>
                  LeftAs(p.status, after.status, e.cause) && after.chain == p.chain + Sent(e.buy, Buy))
            && (e.keyOpens && Catches(p, long, e) && e.catchUp != Settled ==>
                  LeftAs(p.status, after.status, e.cause) && after.chain == p.chain + Sent(e.catchUp, CatchUp))
            && (ComesTo(p, long, legs, e, j) && j < legs && !SmoothLeg(e.legs[j]) ==>
                  && after.chain == begun + LegsOnChain(FirstOpen(p), j) + LegTxs(j, e.legs[j])
                  && (e.legs[j].cancelSeen ==> after.status == Reversing && LegTxs(j, e.legs[j]) == [])
                  && (!e.legs[j].cancelSeen ==> LeftAs(p.status, after.status, e.legs[j].cause)))
            && (ComesTo(p, long, legs, e, legs) ==>
                  && after.chain == begun + LegsOnChain(FirstOpen(p), legs)
                  && after.status == if e.cancelSeenLast then Reversing else Open)
  {
    hide Count, Number, BorrowsInOrder, BuysFirst, SalesFollow, Prepared, LegsRun, Completed, LegTxs, SmoothLeg;
    StartEnds(p, long, legs, e);
    var (ready, ok) := Prepared(p, long, legs, e);
    if ok {
      if ComesTo(p, long, legs, e, j) {
        LegsEnd(ready, FirstOpen(p), legs, e, j);
      }
      if ComesTo(p, long, legs, e, legs) {
        LegsEnd(ready, FirstOpen(p), legs, e, legs);
      }
    }
    NothingSeen(j, e);
  }

  lemma NothingSeen(j: nat, e: RunEvents)
    ensures j < |e.legs| && e.legs[j].cancelSeen ==> LegTxs(j, e.legs[j]) == []
  {
  }

  /** The first leg that does not go through, if any. */
  function FirstTrouble(e: RunEvents, from: nat): (j: nat)
    requires from <= |e.legs|
    ensures from <= j <= |e.legs| && (forall k :: from <= k < j ==> SmoothLeg(e.legs[k]))
    ensures j < |e.legs| ==> !SmoothLeg(e.legs[j])
    decreases |e.legs| - from
  {
    if from == |e.legs| || !SmoothLeg(e.legs[from]) then from else FirstTrouble(e, from + 1)
  }

  /** A run opens the position exactly when the key opens and from where it resumes nothing is cancelled, missing or
      unsettled. */
  lemma OpensExactly(p: Progress, long: bool, legs: nat, e: RunEvents)
    requires Good(p, long, legs) && p.status != Open && |e.legs| == legs
    ensures RunOnce(p, long, legs, e).status == Open <==> ComesTo(p, long, legs, e, legs) && !e.cancelSeenLast
  {
    hide RunOnce, SmoothLeg, LegTxs, LegsOnChain, Before;
    var j := FirstTrouble(e, FirstOpen(p));
    RunEnds(p, long, legs, e, j);
  }

  /** A cancel is met before the buy, at the head of a leg or after the last, or is why an operation did not go
      through. */
  predicate MeetsCancel(p: Progress, long: bool, legs: nat, e: RunEvents)
    requires |e.legs| == legs
  {
    || (e.keyOpens && Buys(p, long) && (e.cancelSeen || (e.buy != Settled && e.cause == Reversal)))
    || (e.keyOpens && Catches(p, long, e) && e.catchUp != Settled && e.cause == Reversal)
    || (exists j :: 0 <= j < legs && ComesTo(p, long, legs, e, j) && !SmoothLeg(e.legs[j])
                    && (e.legs[j].cancelSeen || e.legs[j].cause == Reversal))
    || (ComesTo(p, long, legs, e, legs) && e.cancelSeenLast)
  }

  /** And it ends reversing exactly when it meets a cancel. */
  lemma CancelReverses(p: Progress, long: bool, legs: nat, e: RunEvents)
    requires Good(p, long, legs) && (p.status == Running || p.status == Failed) && |e.legs| == legs
    ensures RunOnce(p, long, legs, e).status == Reversing <==> MeetsCancel(p, long, legs, e)
  {
    hide RunOnce, SmoothLeg, LegTxs, LegsOnChain, Before, FirstOpen;
    StartEnds(p, long, legs, e);
    hide Good;
    var j := FirstTrouble(e, FirstOpen(p));
    RunEnds(p, long, legs, e, j);
    forall i | 0 <= i < legs && ComesTo(p, long, legs, e, i) && !SmoothLeg(e.legs[i])
      ensures i == j
    {
    }
  }

  // ---------- sales that are missed ----------

  /** The sale of a leg's proceeds goes out in the run that borrows for it, or not at all. */
  predicate SellsIn(e: LegEvent) {
    e.borrow == Settled && e.trade != NotSent
  }

  lemma {:induction false} LegsSell(p: Progress, leg: nat, legs: nat, e: RunEvents, k: nat)
    requires |e.legs| == legs && leg <= legs && k < legs
    ensures var chain := LegsRun(p, leg, legs, e).chain;
            && p.chain <= chain && (Buy in chain ==> Buy in p.chain)
            && (k < leg ==>
                  && (Sold(k) in chain <==> Sold(k) in p.chain)
                  && (Borrowed(k) in chain <==> Borrowed(k) in p.chain))
            && (k >= leg && Borrowed(k) !in p.chain && Sold(k) !in p.chain && Borrowed(k) in chain ==>
                  (Sold(k) in chain <==> SellsIn(e.legs[k])))
    decreases legs - leg
  {
    if leg < legs {
      LegPuts(p, leg, e.legs[leg]);
      var (next, ok) := LegRun(p, leg, e.legs[leg]);
      hide LegRun;
      if ok {
        LegsSell(next, leg + 1, legs, e, k);
      }
    }
  }

  lemma PreparedPuts(p: Progress, long: bool, legs: nat, e: RunEvents)
    ensures var (ready, ok) := Prepared(p, long, legs, e);
            && (ready.chain == p.chain || ready.chain == p.chain + [Buy] || ready.chain == p.chain + [CatchUp])
            && (ok ==> Count(Borrow, ready.steps) == Count(Borrow, p.steps))
  {
    hide Count;
    CountNote(p, Note);
    var noted := p.Record([Note]);
    if e.buy != NotSent {
      SubmittedCounts(noted, Buy, e.buy, Borrow);
    }
    if e.catchUp != NotSent {
      SubmittedCounts(noted, CatchUp, e.catchUp, Borrow);
    }
  }

  /** A sale is on the chain only after its borrow, and a borrow only if it is among those counted. */
  lemma NotYet(p: Progress, long: bool, legs: nat, k: nat)
    requires Good(p, long, legs)
    ensures Sold(k) in p.chain ==> Borrowed(k) in p.chain
    ensures Borrowed(k) in p.chain <==> k < Number(Borrow, p.chain)
  {
    hide Count, Number, BuysFirst;
    OnceEach(p.chain, k);
    if Sold(k) in p.chain {
      var i :| 0 <= i < |p.chain| && p.chain[i] == Sold(k);
      assert p.chain[i - 1] == Borrowed(k);
    }
  }

  /** What a run does about a leg's sale: nothing, if the leg was borrowed for before; and if this run borrows for it,
      the sale follows exactly when the borrow settles and the sale goes out. */
  lemma RunSells(p: Progress, long: bool, legs: nat, e: RunEvents, k: nat)
    requires Good(p, long, legs) && p.status != Open && |e.legs| == legs && k < legs
    ensures var chain := RunOnce(p, long, legs, e).chain;
            && p.chain <= chain
            && (Borrowed(k) in p.chain ==> (Sold(k) in chain <==> Sold(k) in p.chain))
            && (Borrowed(k) !in p.chain && Borrowed(k) in chain ==> (Sold(k) in chain <==> SellsIn(e.legs[k])))
  {
    hide Count, Number, BorrowsInOrder, BuysFirst, SalesFollow, Prepared, LegsRun;
    NotYet(p, long, legs, k);
    PreparedPuts(p, long, legs, e);
    var (ready, ok) := Prepared(p, long, legs, e);
    if e.keyOpens && ok {
      LegsSell(ready, Completed(p.steps, legs), legs, e, k);
    }
  }

  /** Some run borrows for the leg, and its borrow does not settle or its sale does not go out. */
  predicate Missed(p: Progress, long: bool, legs: nat, es: seq<RunEvents>, k: nat)
    requires forall i :: 0 <= i < |es| ==> |es[i].legs| == legs
    requires k < legs
    decreases |es|
  {
    && es != []
    && var next := TakenUp(p, long, legs, es[0]);
       (Borrowed(k) !in p.chain && Borrowed(k) in next.chain && !SellsIn(es[0].legs[k]))
       || Missed(next, long, legs, es[1..], k)
  }

  lemma {:induction false} HistorySells(p: Progress, long: bool, legs: nat, es: seq<RunEvents>, k: nat)
    requires Good(p, long, legs) && k < legs
    requires forall i :: 0 <= i < |es| ==> |es[i].legs| == legs
    ensures var chain := History(p, long, legs, es).chain;
            && (Borrowed(k) in p.chain ==>
                  && (Sold(k) in chain <==> Sold(k) in p.chain) && !Missed(p, long, legs, es, k)
                  && Borrowed(k) in chain)
            && (Borrowed(k) !in p.chain && Borrowed(k) in chain ==>
                  (Sold(k) in chain <==> !Missed(p, long, legs, es, k)))
    decreases |es|
  {
    hide Count, Number, BorrowsInOrder, BuysFirst, SalesFollow, RunOnce, SellsIn;
    if es != [] {
      if Entered(p, es[0].entry).Some? {
        EnteredKeeps(p, es[0].entry, long, legs);
        RunSells(Entered(p, es[0].entry).value, long, legs, es[0], k);
      }
      TakenUpKeeps(p, long, legs, es[0]);
      HistorySells(TakenUp(p, long, legs, es[0]), long, legs, es[1..], k);
    }
  }

  /** In every history that ends open, a leg's sale is on the chain if and only if no run that submitted the leg's
      borrow had it unsettled or its sale not sent: no later run makes it up. */
  lemma EverySaleExactly(long: bool, legs: nat, es: seq<RunEvents>, k: nat)
    requires k < legs && forall i :: 0 <= i < |es| ==> |es[i].legs| == legs
    ensures History(NEW, long, legs, es).status == Open ==>
              (Sold(k) in History(NEW, long, legs, es).chain <==> !Missed(NEW, long, legs, es, k))
  {
    hide History, Missed;
    NewIsGood(long, legs);
    HistorySells(NEW, long, legs, es, k);
    EveryHistory(long, legs, es, k);
  }

  /** What a resumed long does first: with base left over it sells that, or does not get to open. A short has no such
      step. */
  lemma LongsCatchUp(p: Progress, legs: nat, e: RunEvents)
    requires Good(p, true, legs) && p.status != Open && p.chain != [] && |e.legs| == legs
    ensures var next := RunOnce(p, true, legs, e);
            e.keyOpens && e.stranded ==>
              && (e.catchUp != NotSent ==> p.chain + [CatchUp] <= next.chain)
              && (e.catchUp != Settled ==> next.status != Open)
  {
    hide Count, Number, BorrowsInOrder, BuysFirst, SalesFollow, LegsRun;
    Untraded(p, true, legs);
    var (ready, ok) := Prepared(p, true, legs, e);
    if ok && legs > 0 {
      LegsSell(ready, Completed(p.steps, legs), legs, e, 0);
    } else if ok {
      NoLegs(ready, e);
    }
  }

  lemma NoLegs(p: Progress, e: RunEvents)
    requires e.legs == []
    ensures LegsRun(p, 0, 0, e).chain == p.chain
  {
  }

  /** So a short can open with its last leg's proceeds unsold: the sale fails, the retry finds every leg borrowed for,
      and goes straight to open. */
  lemma ResumedShortsSkipASale(e: RunEvents)
    requires |e.legs| == 1 && e.entry == Retry && e.keyOpens && !e.cancelSeenLast
    ensures var failing := RunEvents(Lifecycle(true), true, false, NotSent, false, NotSent, Error,
                                     [LegEvent(false, true, Settled, NotSent, Error)], false);
            var p := History(NEW, false, 1, [failing, e]);
            p.status == Open && p.chain == [Borrowed(0)]
  {
    hide Count;
    var failing := RunEvents(Lifecycle(true), true, false, NotSent, false, NotSent, Error,
                             [LegEvent(false, true, Settled, NotSent, Error)], false);
    var lent := Submitted(NEW.Record([Note]).Record([LegStart]), Borrow, Borrowed(0), Settled);
    var failed := Stop(lent, Error);
    CountZero();
    assert LegsRun(NEW.Record([Note]), 0, 1, failing) == failed;
    assert RunOnce(NEW, false, 1, failing) == failed;
    var resumed := Entered(failed, Retry).value;
    assert resumed.steps == [Note, LegStart, Borrow, Batch, Batch, Note, Note];
    CountResumed();
    var done := RunOnce(resumed, false, 1, e);
    assert done == LegsRun(resumed.Record([Note]), 1, 1, e);
    assert [failing, e][1..] == [e] && [e][1..] == [];
    assert History(done, false, 1, []) == done;
    assert History(failed, false, 1, [e]) == done;
  }

  lemma CountZero()
    ensures Count(Trade, []) == 0 && Count(Borrow, []) == 0
  {
  }

  lemma CountResumed()
    ensures Count(Borrow, [Note, LegStart, Borrow, Batch, Batch, Note, Note]) == 1
    ensures Count(Trade, [Note, LegStart, Borrow, Batch, Batch, Note, Note]) == 0
  {
    forall kind
      ensures Count(kind, [Note, LegStart, Borrow, Batch, Batch, Note, Note])
              == Count(kind, [Note, LegStart]) + Count(kind, [Borrow, Batch]) + Count(kind, [Batch, Note])
                 + Count(kind, [Note])
    {
      CountAdd(kind, [Note, LegStart], [Borrow, Batch]);
      CountAdd(kind, [Note, LegStart, Borrow, Batch], [Batch, Note]);
      CountAdd(kind, [Note, LegStart, Borrow, Batch, Batch, Note], [Note]);
      assert [Note, LegStart] + [Borrow, Batch] == [Note, LegStart, Borrow, Batch];
      assert [Note, LegStart, Borrow, Batch] + [Batch, Note] == [Note, LegStart, Borrow, Batch, Batch, Note];
      assert [Note, LegStart, Borrow, Batch, Batch, Note] + [Note]
          == [Note, LegStart, Borrow, Batch, Batch, Note, Note];
    }
    CountFew(Borrow, Note, LegStart);
    CountFew(Borrow, Borrow, Batch);
    CountFew(Borrow, Batch, Note);
    CountFew(Trade, Note, LegStart);
    CountFew(Trade, Borrow, Batch);
    CountFew(Trade, Batch, Note);
    CountFew(Borrow, Note, Note);
    CountFew(Trade, Note, Note);
  }
}
