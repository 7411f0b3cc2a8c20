/** Closing everything a temporary wallet has open at the lending source: active positions are repaid from their
    collateral, stuck orders are cancelled, and the listing is fetched again, for a few rounds, until nothing is
    left to submit. */
module UnwindLoop {
  import opened DecimalKeys

  const MAX_CLOSE_ROUNDS: nat := 6

  datatype Status = Pending | Active | Closed

  datatype Order = Order(txHash: string, outputIndex: int64, market: string, isBorrow: bool, status: Status)

  /** What comes of closing an order, should that be tried. Unconfirmed: the lender took it, and the engine was told of
      an error all the same; a cancel whose confirmation timed out, or a repay whose answer was lost. */
  datatype Outcome = BuildFails | SubmitFails | Unconfirmed | Accepted

  /** An order in a listing, and the outcome of closing it. */
  datatype Seen = Seen(order: Order, outcome: Outcome)
  datatype Snapshot = FetchFailed | Fetched(seen: seq<Seen>)

  datatype Close = Cancel | Repay
  datatype Submission = Submission(kind: Close, order: Order, confirmed: bool)

  /** The books of one unwind: markets repaid, orders cancelled, markets whose stale repay was cancelled and that still
      owe a repay, and how many closes went through, as far as the engine knows; and every close the lender took. */
  datatype Books = Books(closedMarkets: set<string>, cancelledOrders: set<string>, owedMarkets: set<string>,
                         accepted: nat, log: seq<Submission>)

  const NOTHING_YET := Books({}, {}, {}, 0, [])

  function Key(o: Order): string {
    OutputKey(o.txHash, o.outputIndex)
  }

  // ---------- one order ----------

  predicate IsOpen(o: Order) {
    o.status == Pending || o.status == Active
  }

  /** Nothing more is to be submitted for the order: it is cancelled already, or its market is being repaid. */
  predicate Settling(b: Books, o: Order) {
    if o.status == Pending then Key(o) in b.cancelledOrders || (!o.isBorrow && o.market in b.closedMarkets)
    else o.status == Active && o.market in b.closedMarkets
  }

  function CloseOf(o: Order): Close {
    if o.status == Pending then Cancel else Repay
  }

  function Accept(b: Books, o: Order): Books {
    if o.status == Pending then
      Books(b.closedMarkets, b.cancelledOrders + {Key(o)},
            if o.isBorrow then b.owedMarkets else b.owedMarkets + {o.market}, b.accepted + 1,
            b.log + [Submission(Cancel, o, true)])
    else
      Books(b.closedMarkets + {o.market}, b.cancelledOrders, b.owedMarkets - {o.market}, b.accepted + 1,
            b.log + [Submission(Repay, o, true)])
  }

  /** An unconfirmed close reaches the lender and none of the engine's books. */
  function Lose(b: Books, o: Order): Books {
    b.(log := b.log + [Submission(CloseOf(o), o, false)])
  }

  function Handle(b: Books, s: Seen): Books {
    if !IsOpen(s.order) || Settling(b, s.order) then b
    else if s.outcome == Accepted then Accept(b, s.order)
    else if s.outcome == Unconfirmed then Lose(b, s.order)
    else b
  }

  // ---------- rounds ----------

  function RoundFrom(b: Books, seen: seq<Seen>): Books
    decreases |seen|
  {
    if seen == [] then b else RoundFrom(Handle(b, seen[0]), seen[1..])
  }

  predicate AnyOpen(seen: seq<Seen>) {
    exists i :: 0 <= i < |seen| && IsOpen(seen[i].order)
  }

  /** A listing leaves something to come back for: it shows an open order, and a close went through or a repay is still
      owed. */
  predicate GoesOn(b: Books, seen: seq<Seen>) {
    var after := RoundFrom(b, seen);
    AnyOpen(seen) && (after.accepted != b.accepted || after.owedMarkets - after.closedMarkets != {})
  }

  /** The rounds over the remaining listings. */
  function RoundsFrom(b: Books, world: seq<Snapshot>): Books
    decreases |world|
  {
    if world == [] || world[0].FetchFailed? then b
    else
      var after := RoundFrom(b, world[0].seen);
      if GoesOn(b, world[0].seen) then RoundsFrom(after, world[1..]) else after
  }

  // ---------- the loop ----------

  method CloseOpenOrders(world: seq<Snapshot>) returns (closedAny: bool, log: seq<Submission>)
    requires |world| == MAX_CLOSE_ROUNDS
    ensures log == RoundsFrom(NOTHING_YET, world).log
    ensures closedAny <==> RoundsFrom(NOTHING_YET, world).accepted > 0
  {
    hide RoundFrom, Handle, Settling;
    var closedMarkets: set<string>, cancelledOrders: set<string>, owedMarkets: set<string> := {}, {}, {};
    ghost var accepted: nat := 0;
    closedAny, log := false, [];
    var round := 0;
    while round < MAX_CLOSE_ROUNDS
      invariant 0 <= round <= MAX_CLOSE_ROUNDS
      invariant closedAny <==> accepted > 0
      invariant RoundsFrom(Books(closedMarkets, cancelledOrders, owedMarkets, accepted, log), world[round..])
                == RoundsFrom(NOTHING_YET, world)
    {
      assert world[round..][0] == world[round] && world[round..][1..] == world[round + 1..];
      if world[round].FetchFailed? { return; }
      var orders := world[round].seen;
      var openLeft, didSubmit;
      openLeft, didSubmit, closedMarkets, cancelledOrders, owedMarkets, accepted, log :=
        CloseRound(orders, closedMarkets, cancelledOrders, owedMarkets, accepted, log);
      if didSubmit { closedAny := true; }
      if openLeft == 0 { return; }
      var awaitingRevert := owedMarkets - closedMarkets != {};
      if !didSubmit && !awaitingRevert { return; }
      round := round + 1;
    }
  }

  /** One pass over a listing. */
  method CloseRound(orders: seq<Seen>, closed0: set<string>, cancelled0: set<string>, owed0: set<string>,
                    ghost accepted0: nat, log0: seq<Submission>)
    returns (openLeft: nat, didSubmit: bool, closedMarkets: set<string>, cancelledOrders: set<string>,
             owedMarkets: set<string>, ghost accepted: nat, log: seq<Submission>)
    ensures Books(closedMarkets, cancelledOrders, owedMarkets, accepted, log)
            == RoundFrom(Books(closed0, cancelled0, owed0, accepted0, log0), orders)
    ensures openLeft > 0 <==> AnyOpen(orders)
    ensures accepted >= accepted0 && (didSubmit <==> accepted != accepted0)
  {
    hide RoundFrom, Key;
    RoundEnds(Books(closed0, cancelled0, owed0, accepted0, log0), orders);
    closedMarkets, cancelledOrders, owedMarkets, accepted, log := closed0, cancelled0, owed0, accepted0, log0;
    openLeft, didSubmit := 0, false;
    for i := 0 to |orders|
      invariant RoundFrom(Books(closedMarkets, cancelledOrders, owedMarkets, accepted, log), orders[i..])
                == RoundFrom(Books(closed0, cancelled0, owed0, accepted0, log0), orders)
      invariant openLeft > 0 <==> AnyOpen(orders[..i])
      invariant accepted >= accepted0 && (didSubmit <==> accepted != accepted0)
    {
      ghost var b := Books(closedMarkets, cancelledOrders, owedMarkets, accepted, log);
      RoundStep(b, orders, i);
      OpenUpTo(orders, i);
      var o := orders[i].order;
      var kind: Close;
      if o.status == Pending {
        openLeft := openLeft + 1;
        if Key(o) in cancelledOrders { continue; }
        if !o.isBorrow && o.market in closedMarkets { continue; }
        kind := Cancel;
      } else if o.status == Active {
        openLeft := openLeft + 1;
        if o.market in closedMarkets { continue; }
        kind := Repay;
      } else {
        continue;
      }
      if orders[i].outcome == BuildFails { continue; }
      if orders[i].outcome == SubmitFails { continue; }
      log := log + [Submission(kind, o, orders[i].outcome == Accepted)];
      if orders[i].outcome == Unconfirmed { continue; }
      didSubmit := true;
      accepted := accepted + 1;
      if kind == Cancel {
        cancelledOrders := cancelledOrders + {Key(o)};
        if !o.isBorrow { owedMarkets := owedMarkets + {o.market}; }
      } else {
        closedMarkets := closedMarkets + {o.market};
        owedMarkets := owedMarkets - {o.market};
      }
    }
    RoundEnds(Books(closedMarkets, cancelledOrders, owedMarkets, accepted, log), orders);
  }

  lemma RoundEnds(b: Books, orders: seq<Seen>)
    ensures RoundFrom(b, orders[|orders|..]) == b && orders[0..] == orders && orders[..|orders|] == orders
  {
  }

  lemma RoundStep(b: Books, orders: seq<Seen>, i: nat)
    requires i < |orders|
    ensures RoundFrom(b, orders[i..]) == RoundFrom(Handle(b, orders[i]), orders[i + 1..])
  {
    assert orders[i..][1..] == orders[i + 1..];
  }

  lemma OpenUpTo(orders: seq<Seen>, i: nat)
    requires i < |orders|
    ensures AnyOpen(orders[..i + 1]) <==> AnyOpen(orders[..i]) || IsOpen(orders[i].order)
  {
    var a, b := orders[..i], orders[..i + 1];
    if IsOpen(orders[i].order) {
      assert IsOpen(b[i].order);
    }
    if AnyOpen(a) {
      var j :| 0 <= j < |a| && IsOpen(a[j].order);
      assert IsOpen(b[j].order);
    }
    if AnyOpen(b) {
      var j :| 0 <= j < |b| && IsOpen(b[j].order);
      assert j == i || IsOpen(a[j].order);
    }
  }

  lemma {:induction false} LogGrows(b: Books, seen: seq<Seen>)
    ensures b.log <= RoundFrom(b, seen).log && b.accepted <= RoundFrom(b, seen).accepted
    ensures RoundFrom(b, seen).accepted == b.accepted ==> RoundFrom(b, seen) == b.(log := RoundFrom(b, seen).log)
    decreases |seen|
  {
    if seen != [] {
      LogGrows(Handle(b, seen[0]), seen[1..]);
    }
  }

  // ---------- what no run does ----------

  /** What a close is of: an order to cancel, or a market to repay. */
  function NameOf(kind: Close, o: Order): string {
    if kind == Cancel then Key(o) else o.market
  }

  predicate IsCloseOf(s: Submission, kind: Close, name: string) {
    s.kind == kind && NameOf(kind, s.order) == name
  }

  /** How many closes of something the lender took. */
  function Closes(log: seq<Submission>, kind: Close, name: string): nat
    decreases |log|
  {
    if log == [] then 0
    else
      var n := |log| - 1;
      Closes(log[..n], kind, name) + if IsCloseOf(log[n], kind, name) then 1 else 0
  }

  /** How many of them the engine was not told of. */
  function Lost(log: seq<Submission>, kind: Close, name: string): nat
    decreases |log|
  {
    if log == [] then 0
    else
      var n := |log| - 1;
      Lost(log[..n], kind, name) + if IsCloseOf(log[n], kind, name) && !log[n].confirmed then 1 else 0
  }

  function Settled(b: Books, kind: Close): set<string> {
    if kind == Cancel then b.cancelledOrders else b.closedMarkets
  }

  /** Closes the lender took are those the engine knows of, one at most, and those it was not told of. */
  predicate Accounted(b: Books, kind: Close, name: string) {
    Closes(b.log, kind, name) == Lost(b.log, kind, name) + if name in Settled(b, kind) then 1 else 0
  }

  /** Once a close of something is confirmed there is no other. */
  predicate ConfirmedIsLast(log: seq<Submission>) {
    forall i, j :: 0 <= i < j < |log| && log[i].confirmed && log[i].kind == log[j].kind ==>
                     NameOf(log[i].kind, log[i].order) != NameOf(log[j].kind, log[j].order)
  }

  /** After a market's repay is confirmed only unfilled borrows are cancelled in it, so never the repay itself. */
  predicate NoRepayUndone(log: seq<Submission>) {
    forall i, j :: 0 <= i < j < |log| && log[i].kind == Repay && log[i].confirmed
                   && log[j].kind == Cancel && !log[j].order.isBorrow ==>
                     log[i].order.market != log[j].order.market
  }

  /** Repays go to active positions and cancels to pending orders. */
  predicate RightKinds(log: seq<Submission>) {
    forall i :: 0 <= i < |log| ==> log[i].order.status == if log[i].kind == Repay then Active else Pending
  }

  predicate Confirmed(log: seq<Submission>, kind: Close, name: string) {
    exists i :: 0 <= i < |log| && log[i].confirmed && IsCloseOf(log[i], kind, name)
  }

  predicate StaleCancelled(log: seq<Submission>, market: string) {
    exists i :: 0 <= i < |log| && log[i].kind == Cancel && log[i].confirmed && !log[i].order.isBorrow
                && log[i].order.market == market
  }

  /** The sets say what the log does. */
  ghost predicate BooksMatch(b: Books) {
    && (forall kind, name :: name in Settled(b, kind) <==> Confirmed(b.log, kind, name))
    && (forall kind, name :: Accounted(b, kind, name))
    && (forall m :: m in b.owedMarkets <==> StaleCancelled(b.log, m) && m !in b.closedMarkets)
  }

  ghost predicate Safe(b: Books) {
    && ConfirmedIsLast(b.log) && NoRepayUndone(b.log) && RightKinds(b.log)
    && BooksMatch(b) && b.owedMarkets !! b.closedMarkets
  }

  lemma OneMore(log: seq<Submission>, s: Submission, kind: Close, name: string)
    ensures Confirmed(log + [s], kind, name)
            <==> Confirmed(log, kind, name) || (s.confirmed && IsCloseOf(s, kind, name))
    ensures Closes(log + [s], kind, name) == Closes(log, kind, name) + if IsCloseOf(s, kind, name) then 1 else 0
    ensures Lost(log + [s], kind, name)
            == Lost(log, kind, name) + if IsCloseOf(s, kind, name) && !s.confirmed then 1 else 0
    ensures StaleCancelled(log + [s], name)
            <==> StaleCancelled(log, name)
                 || (s.kind == Cancel && s.confirmed && !s.order.isBorrow && s.order.market == name)
  {
    hide Key;
    var after := log + [s];
    assert after[|log|] == s && after[..|log|] == log;
    assert forall i :: 0 <= i < |log| ==> after[i] == log[i];
  }

  lemma CloseKeepsBooks(b: Books, o: Order, after: Books)
    requires BooksMatch(b) && IsOpen(o) && !Settling(b, o) && (after == Accept(b, o) || after == Lose(b, o))
    ensures BooksMatch(after)
  {
    hide Key, Confirmed, StaleCancelled, Closes, Lost;
    forall kind, name
      ensures name in Settled(after, kind) <==> Confirmed(after.log, kind, name)
      ensures Accounted(after, kind, name)
    {
      assert Accounted(b, kind, name);
      OneMore(b.log, Submission(CloseOf(o), o, after == Accept(b, o)), kind, name);
    }
    forall m
      ensures m in after.owedMarkets <==> StaleCancelled(after.log, m) && m !in after.closedMarkets
    {
      OneMore(b.log, Submission(CloseOf(o), o, after == Accept(b, o)), Cancel, m);
    }
  }

  lemma CloseIsNew(b: Books, o: Order, after: Books)
    requires Safe(b) && IsOpen(o) && !Settling(b, o) && (after == Accept(b, o) || after == Lose(b, o))
    ensures ConfirmedIsLast(after.log) && NoRepayUndone(after.log) && RightKinds(after.log)
  {
    hide Key, StaleCancelled, Closes, Lost;
    assert forall i :: 0 <= i < |b.log| ==> after.log[i] == b.log[i];
    assert Confirmed(b.log, Repay, o.market) <==> o.market in Settled(b, Repay);
    assert Confirmed(b.log, Cancel, Key(o)) <==> Key(o) in Settled(b, Cancel);
  }

  lemma HandleKeepsSafe(b: Books, s: Seen)
    requires Safe(b)
    ensures Safe(Handle(b, s))
  {
    hide Key, BooksMatch;
    var after := Handle(b, s);
    if IsOpen(s.order) && !Settling(b, s.order) && (s.outcome == Accepted || s.outcome == Unconfirmed) {
      CloseKeepsBooks(b, s.order, after);
      CloseIsNew(b, s.order, after);
    }
  }

  lemma {:induction false} RoundKeepsSafe(b: Books, seen: seq<Seen>)
    requires Safe(b)
    ensures Safe(RoundFrom(b, seen))
    decreases |seen|
  {
    hide Safe, Handle;
    if seen != [] {
      HandleKeepsSafe(b, seen[0]);
      RoundKeepsSafe(Handle(b, seen[0]), seen[1..]);
    }
  }

  lemma {:induction false} RoundsKeepSafe(b: Books, world: seq<Snapshot>)
    requires Safe(b)
    ensures Safe(RoundsFrom(b, world))
    decreases |world|
  {
    hide Safe, RoundFrom;
    if world != [] && world[0].Fetched? {
      RoundKeepsSafe(b, world[0].seen);
      RoundsKeepSafe(RoundFrom(b, world[0].seen), world[1..]);
    }
  }

  /** Whatever the listings show and whatever fails: nothing is closed again once its close is confirmed, no confirmed
      repay is cancelled, the books are what the log says, and no market is both repaid and still owed a repay. */
  lemma EveryUnwindIsSafe(world: seq<Snapshot>)
    ensures Safe(RoundsFrom(NOTHING_YET, world))
  {
    hide RoundsFrom;
    assert Safe(NOTHING_YET);
    RoundsKeepSafe(NOTHING_YET, world);
  }

  /** Closes of an order or of a market's positions that the lender took: one if one is confirmed, and those the engine
      was not told of. */
  lemma EveryCloseAccounted(world: seq<Snapshot>, kind: Close, name: string)
    ensures Accounted(RoundsFrom(NOTHING_YET, world), kind, name)
  {
    hide RoundsFrom, Closes, Lost;
    EveryUnwindIsSafe(world);
  }

  /** No listing has an unconfirmed close of it. */
  predicate Heard(seen: seq<Seen>, kind: Close, name: string) {
    forall i :: 0 <= i < |seen| && CloseOf(seen[i].order) == kind && NameOf(kind, seen[i].order) == name ==>
                  seen[i].outcome != Unconfirmed
  }

  predicate AlwaysHeard(world: seq<Snapshot>, kind: Close, name: string) {
    forall r :: 0 <= r < |world| && world[r].Fetched? ==> Heard(world[r].seen, kind, name)
  }

  lemma {:induction false} NoneLostInRound(b: Books, seen: seq<Seen>, kind: Close, name: string)
    requires Heard(seen, kind, name)
    ensures Lost(RoundFrom(b, seen).log, kind, name) == Lost(b.log, kind, name)
    decreases |seen|
  {
    hide Lost, Key;
    if seen != [] {
      var o := seen[0].order;
      OneMore(b.log, Submission(CloseOf(o), o, seen[0].outcome == Accepted), kind, name);
      NoneLostInRound(Handle(b, seen[0]), seen[1..], kind, name);
    }
  }

  lemma NoneYet(kind: Close, name: string)
    ensures Lost([], kind, name) == 0
  {
  }

  lemma {:induction false} NoneLost(b: Books, world: seq<Snapshot>, kind: Close, name: string)
    requires AlwaysHeard(world, kind, name)
    ensures Lost(RoundsFrom(b, world).log, kind, name) == Lost(b.log, kind, name)
    decreases |world|
  {
    hide Lost, RoundFrom, Heard, AnyOpen;
    if world != [] && world[0].Fetched? {
      assert Heard(world[0].seen, kind, name);
      NoneLostInRound(b, world[0].seen, kind, name);
      NoneLost(RoundFrom(b, world[0].seen), world[1..], kind, name);
    }
  }

  /** So an order whose cancels are all confirmed, or refused, is cancelled at most once, and a market likewise
      repaid. */
  lemma HeardOfIsClosedOnce(world: seq<Snapshot>, kind: Close, name: string)
    requires AlwaysHeard(world, kind, name)
    ensures Closes(RoundsFrom(NOTHING_YET, world).log, kind, name) <= 1
  {
    hide RoundsFrom, Closes, Lost;
    NoneLost(NOTHING_YET, world, kind, name);
    NoneYet(kind, name);
    EveryCloseAccounted(world, kind, name);
  }

  /** An unconfirmed close is made again: the first round cancels an order or repays a position, is not told so, and
      goes on because it repaid another market; the second still finds the order open. Were there nothing else to
      submit, the first round would be the last, and would report nothing closed with a close under way. */
  lemma UnconfirmedCloseIsRepeated(o: Order, position: Order)
    requires IsOpen(o) && position.status == Active && position.market != o.market
    ensures var kind, first := CloseOf(o), Fetched([Seen(o, Unconfirmed), Seen(position, Accepted)]);
            var b := RoundsFrom(NOTHING_YET, [first, Fetched([Seen(o, Accepted)]), Fetched([])]);
            b.log == [Submission(kind, o, false), Submission(Repay, position, true), Submission(kind, o, true)]
    ensures var b := RoundsFrom(NOTHING_YET, [Fetched([Seen(o, Unconfirmed)]), Fetched([Seen(o, Accepted)])]);
            b.accepted == 0 && b.log == [Submission(CloseOf(o), o, false)]
  {
    hide Key;
    var seen := [Seen(o, Unconfirmed), Seen(position, Accepted)];
    var world := [Fetched(seen), Fetched([Seen(o, Accepted)]), Fetched([])];
    var lost := Lose(NOTHING_YET, o);
    var first := Accept(lost, position);
    OneOrder(NOTHING_YET, Seen(o, Unconfirmed));
    OneOrder(lost, Seen(position, Accepted));
    assert seen[1..] == [Seen(position, Accepted)];
    assert RoundFrom(NOTHING_YET, seen) == first;
    assert IsOpen(seen[0].order);
    OneOrder(first, Seen(o, Accepted));
    assert IsOpen([Seen(o, Accepted)][0].order) && IsOpen([Seen(o, Unconfirmed)][0].order);
    var second := Accept(first, o);
    assert RoundFrom(second, []) == second;
    assert world[1..][1..] == [Fetched([])] && world[1..] == [Fetched([Seen(o, Accepted)]), Fetched([])];
    assert RoundsFrom(second, [Fetched([])]) == second;
    assert RoundsFrom(first, world[1..]) == second;
  }

  lemma OneOrder(b: Books, s: Seen)
    ensures RoundFrom(b, [s]) == Handle(b, s)
  {
    assert RoundFrom(Handle(b, s), [s][1..]) == Handle(b, s);
  }

  // ---------- when a close may be repeated ----------

  /** How many closes of the order, or of its market's positions, the lender took. */
  function ClosesOf(b: Books, o: Order): nat {
    Closes(b.log, CloseOf(o), NameOf(CloseOf(o), o))
  }

  /** A listing that shows the order shows it as it is, but for its status. */
  predicate SameIn(o: Order, seen: seq<Seen>) {
    forall i :: 0 <= i < |seen| && Key(seen[i].order) == Key(o) ==> seen[i].order.(status := o.status) == o
  }

  predicate Consistent(o: Order, later: seq<Snapshot>) {
    forall r :: 0 <= r < |later| && later[r].Fetched? ==> SameIn(o, later[r].seen)
  }

  lemma HandleLeaves(b: Books, s: Seen, o: Order)
    requires IsOpen(o) && Settling(b, o) && (Key(s.order) == Key(o) ==> s.order.(status := o.status) == o)
    ensures Settling(Handle(b, s), o) && ClosesOf(Handle(b, s), o) == ClosesOf(b, o)
  {
    hide Key, Closes;
    OneMore(b.log, Submission(CloseOf(s.order), s.order, s.outcome == Accepted), CloseOf(o), NameOf(CloseOf(o), o));
  }

  /** A settled order is left alone from then on. */
  lemma {:induction false} RoundLeaves(b: Books, seen: seq<Seen>, o: Order)
    requires IsOpen(o) && Settling(b, o) && SameIn(o, seen)
    ensures Settling(RoundFrom(b, seen), o) && ClosesOf(RoundFrom(b, seen), o) == ClosesOf(b, o)
    decreases |seen|
  {
    hide Key, ClosesOf, Settling, Handle, IsOpen;
    if seen != [] {
      HandleLeaves(b, seen[0], o);
      RoundLeaves(Handle(b, seen[0]), seen[1..], o);
    }
  }

  lemma {:induction false} RoundsLeave(b: Books, world: seq<Snapshot>, o: Order)
    requires IsOpen(o) && Settling(b, o) && Consistent(o, world)
    ensures ClosesOf(RoundsFrom(b, world), o) == ClosesOf(b, o)
    decreases |world|
  {
    hide ClosesOf, Settling, SameIn, RoundFrom, IsOpen, AnyOpen;
    if world != [] && world[0].Fetched? {
      assert SameIn(o, world[0].seen);
      RoundLeaves(b, world[0].seen, o);
      RoundsLeave(RoundFrom(b, world[0].seen), world[1..], o);
    }
  }

  lemma NextRound(b: Books, seen: seq<Seen>, later: seq<Snapshot>)
    ensures RoundsFrom(b, [Fetched(seen)] + later)
            == if GoesOn(b, seen) then RoundsFrom(RoundFrom(b, seen), later) else RoundFrom(b, seen)
  {
    hide RoundFrom, AnyOpen;
    var world := [Fetched(seen)] + later;
    assert world[0] == Fetched(seen) && world[1..] == later;
  }

  /** An order not settled is closed once more by a round that finds it open. */
  lemma ClosedAgain(b: Books, o: Order, left: nat) returns (later: seq<Snapshot>)
    requires IsOpen(o) && !Settling(b, o) && left > 0
    ensures |later| == left && Consistent(o, later) && ClosesOf(RoundsFrom(b, later), o) == ClosesOf(b, o) + 1
  {
    hide Key, Closes;
    var seen := [Seen(o, Accepted)];
    var rest := seq(left - 1, i => FetchFailed);
    later := [Fetched(seen)] + rest;
    NextRound(b, seen, rest);
    OneOrder(b, seen[0]);
    OneMore(b.log, Submission(CloseOf(o), o, true), CloseOf(o), NameOf(CloseOf(o), o));
  }

  /** A listing after which the lender has taken one close of an order, with so many rounds left: it takes no other,
      whatever the remaining listings show and whatever fails, exactly when that close was confirmed, or the order is
      a stale one whose market is repaid by now, or no round follows. */
  lemma AtMostOneClose(b: Books, seen: seq<Seen>, o: Order, left: nat)
    requires Safe(b) && IsOpen(o) && ClosesOf(RoundFrom(b, seen), o) == 1
    ensures var after := RoundFrom(b, seen);
            (forall later: seq<Snapshot> | |later| == left && Consistent(o, later) ::
               ClosesOf(RoundsFrom(b, [Fetched(seen)] + later), o) <= 1)
            <==> Lost(after.log, CloseOf(o), NameOf(CloseOf(o), o)) == 0
                 || (o.status == Pending && !o.isBorrow && o.market in after.closedMarkets)
                 || left == 0 || !GoesOn(b, seen)
  {
    hide RoundsFrom, RoundFrom, ClosesOf, GoesOn, Consistent;
    var after := RoundFrom(b, seen);
    RoundKeepsSafe(b, seen);
    SettledIsConfirmed(after, o);
    forall later: seq<Snapshot> | |later| == left && Consistent(o, later)
      ensures Settling(after, o) || left == 0 || !GoesOn(b, seen) ==>
                ClosesOf(RoundsFrom(b, [Fetched(seen)] + later), o) <= 1
    {
      NextRound(b, seen, later);
      if GoesOn(b, seen) && Settling(after, o) {
        RoundsLeave(after, later, o);
      } else if left == 0 {
        NoRounds(after, later);
      }
    }
    if GoesOn(b, seen) && !Settling(after, o) && left > 0 {
      var later := ClosedAgain(after, o, left);
      NextRound(b, seen, later);
    }
  }

  lemma NoRounds(b: Books, later: seq<Snapshot>)
    requires |later| == 0
    ensures RoundsFrom(b, later) == b
  {
  }

  lemma SettledIsConfirmed(b: Books, o: Order)
    requires Safe(b) && IsOpen(o) && ClosesOf(b, o) == 1
    ensures Settling(b, o) <==> Lost(b.log, CloseOf(o), NameOf(CloseOf(o), o)) == 0
                                || (o.status == Pending && !o.isBorrow && o.market in b.closedMarkets)
  {
    hide Key, Closes, Lost, ConfirmedIsLast, NoRepayUndone, RightKinds;
    assert Accounted(b, CloseOf(o), NameOf(CloseOf(o), o));
  }

  // ---------- how many rounds there are ----------

  function OneEach(orders: seq<Order>): (world: seq<Snapshot>)
    ensures |world| == |orders|
  {
    seq(|orders|, i requires 0 <= i < |orders| => Fetched([Seen(orders[i], Accepted)]))
  }

  function Cancels(orders: seq<Order>): seq<Submission> {
    seq(|orders|, i requires 0 <= i < |orders| => Submission(Cancel, orders[i], true))
  }

  predicate FreshBorrows(b: Books, orders: seq<Order>) {
    && (forall i :: 0 <= i < |orders| ==>
          orders[i].status == Pending && orders[i].isBorrow && Key(orders[i]) !in b.cancelledOrders)
    && (forall i, j :: 0 <= i < j < |orders| ==> Key(orders[i]) != Key(orders[j]))
  }

  lemma {:induction false} EachRoundCancels(b: Books, orders: seq<Order>, later: seq<Snapshot>) returns (after: Books)
    requires FreshBorrows(b, orders)
    ensures after.log == b.log + Cancels(orders) && after.closedMarkets == b.closedMarkets
    ensures RoundsFrom(b, OneEach(orders) + later) == RoundsFrom(after, later)
    decreases |orders|
  {
    hide Key;
    if orders == [] {
      assert OneEach(orders) + later == later;
      after := b;
    } else {
      var o, rest := orders[0], orders[1..];
      var seen := [Seen(o, Accepted)];
      OneOrder(b, seen[0]);
      NextRound(b, seen, OneEach(rest) + later);
      assert OneEach(orders) + later == [Fetched(seen)] + (OneEach(rest) + later);
      assert IsOpen(seen[0].order);
      after := EachRoundCancels(Accept(b, o), rest, later);
      assert Cancels(orders) == [Submission(Cancel, o, true)] + Cancels(rest);
    }
  }

  /** The sixth listing counts: with five orders cancelled one round each, a position that it shows is repaid. */
  lemma SixthRoundRepays(orders: seq<Order>, position: Order)
    requires |orders| == 5 && FreshBorrows(NOTHING_YET, orders) && position.status == Active
    ensures var world := OneEach(orders) + [Fetched([Seen(position, Accepted)])];
            && |world| == 6 == MAX_CLOSE_ROUNDS
            && RoundsFrom(NOTHING_YET, world).log == Cancels(orders) + [Submission(Repay, position, true)]
  {
    hide Key;
    var last := [Seen(position, Accepted)];
    var after := EachRoundCancels(NOTHING_YET, orders, [Fetched(last)]);
    OneOrder(after, last[0]);
    NextRound(after, last, []);
    assert [Fetched(last)] + [] == [Fetched(last)];
    NoRounds(Accept(after, position), []);
  }

  // ---------- rounds that close nothing ----------

  /** A pass in which no close went through found none that would: every open order in the listing is settling already,
      or its close failed to build or to submit, or went unconfirmed. */
  lemma {:induction false} NothingSubmitted(b: Books, seen: seq<Seen>, i: nat)
    requires RoundFrom(b, seen).accepted == b.accepted && i < |seen| && IsOpen(seen[i].order)
    ensures Settling(b, seen[i].order) || seen[i].outcome != Accepted
    decreases |seen|
  {
    var next := Handle(b, seen[0]);
    LogGrows(next, seen[1..]);
    if i > 0 {
      NothingSubmitted(next, seen[1..], i - 1);
    }
  }

  // ---------- when it goes on ----------

  function ConfirmedCloses(log: seq<Submission>): nat
    decreases |log|
  {
    if log == [] then 0 else ConfirmedCloses(log[..|log| - 1]) + if log[|log| - 1].confirmed then 1 else 0
  }

  /** The engine counts the closes it was told of. */
  predicate Counted(b: Books) {
    b.accepted == ConfirmedCloses(b.log)
  }

  lemma {:induction false} RoundCounts(b: Books, seen: seq<Seen>)
    requires Counted(b)
    ensures Counted(RoundFrom(b, seen))
    decreases |seen|
  {
    hide Settling, Key;
    if seen != [] {
      var next := Handle(b, seen[0]);
      assert |next.log| > |b.log| ==> next.log[..|next.log| - 1] == b.log;
      RoundCounts(next, seen[1..]);
    }
  }

  lemma {:induction false} RoundsCount(b: Books, world: seq<Snapshot>)
    requires Counted(b)
    ensures Counted(RoundsFrom(b, world))
    decreases |world|
  {
    hide RoundFrom, Counted;
    if world != [] && world[0].Fetched? {
      RoundCounts(b, world[0].seen);
      RoundsCount(RoundFrom(b, world[0].seen), world[1..]);
    }
  }

  /** Something was closed, as far as the caller is told, exactly when a close is confirmed in the log. */
  lemma ClosedAnyIsConfirmed(world: seq<Snapshot>)
    ensures RoundsFrom(NOTHING_YET, world).accepted == ConfirmedCloses(RoundsFrom(NOTHING_YET, world).log)
  {
    hide RoundsFrom;
    assert Counted(NOTHING_YET);
    RoundsCount(NOTHING_YET, world);
  }

  /** After a listing the loop goes on exactly when that showed an open order, and either a close of it was confirmed or
      a stale order's cancel was, at any time, whose market has not been repaid since. */
  lemma GoesOnExactly(b: Books, seen: seq<Seen>)
    requires Safe(b) && Counted(b)
    ensures var log := RoundFrom(b, seen).log;
            GoesOn(b, seen) <==>
              && AnyOpen(seen)
              && (ConfirmedCloses(log) > ConfirmedCloses(b.log)
                  || exists m :: StaleCancelled(log, m) && !Confirmed(log, Repay, m))
  {
    hide RoundFrom, AnyOpen, StaleCancelled, Confirmed, ConfirmedCloses, Closes, Lost;
    var after := RoundFrom(b, seen);
    RoundCounts(b, seen);
    RoundKeepsSafe(b, seen);
    LogGrows(b, seen);
    assert forall m :: m in after.closedMarkets <==> Confirmed(after.log, Repay, m) by {
      forall m
        ensures m in after.closedMarkets <==> Confirmed(after.log, Repay, m)
      {
        assert m in Settled(after, Repay) <==> Confirmed(after.log, Repay, m);
      }
    }
    if after.owedMarkets - after.closedMarkets != {} {
      var m :| m in after.owedMarkets - after.closedMarkets;
      assert StaleCancelled(after.log, m) && !Confirmed(after.log, Repay, m);
    }
    if m :| StaleCancelled(after.log, m) && !Confirmed(after.log, Repay, m) {
      assert m in after.owedMarkets - after.closedMarkets;
    }
  }

  // ---------- when the loop gives up ----------

  /** The run stops for want of anything to submit or to wait for, with orders still open. */
  predicate EndsQuietly(b: Books, world: seq<Snapshot>)
    decreases |world|
  {
    && world != [] && world[0].Fetched? && AnyOpen(world[0].seen)
    && (!GoesOn(b, world[0].seen) || EndsQuietly(RoundFrom(b, world[0].seen), world[1..]))
  }

  /** On that exit every open order of the last listing is cancelled, being repaid, or failed to build, to submit or to
      be confirmed. */
  lemma {:induction false} QuietExit(b: Books, world: seq<Snapshot>) returns (r: nat)
    requires EndsQuietly(b, world)
    ensures r < |world| && world[r].Fetched?
    ensures forall i :: 0 <= i < |world[r].seen| && IsOpen(world[r].seen[i].order) ==>
              Settling(RoundsFrom(b, world), world[r].seen[i].order) || world[r].seen[i].outcome != Accepted
    decreases |world|
  {
    hide Settling, IsOpen, AnyOpen, Handle, RoundFrom;
    var after := RoundFrom(b, world[0].seen);
    if !GoesOn(b, world[0].seen) {
      r := 0;
      LogGrows(b, world[0].seen);
      forall i | 0 <= i < |world[0].seen| && IsOpen(world[0].seen[i].order)
        ensures Settling(after, world[0].seen[i].order) || world[0].seen[i].outcome != Accepted
      {
        NothingSubmitted(b, world[0].seen, i);
        SettlingKept(b, after, world[0].seen[i].order);
      }
    } else {
      var rest := QuietExit(after, world[1..]);
      r := rest + 1;
    }
  }

  lemma SettlingKept(b: Books, after: Books, o: Order)
    requires after == b.(log := after.log)
    ensures Settling(b, o) <==> Settling(after, o)
  {
  }

  // ---------- what a run achieves ----------

  predicate AllAccepted(seen: seq<Seen>) {
    forall i :: 0 <= i < |seen| ==> seen[i].outcome == Accepted
  }

  predicate EveryCloseAccepted(world: seq<Snapshot>) {
    forall r :: 0 <= r < |world| && world[r].Fetched? ==> AllAccepted(world[r].seen)
  }

  predicate ActiveIn(seen: seq<Seen>, market: string) {
    exists i :: 0 <= i < |seen| && seen[i].order.status == Active && seen[i].order.market == market
  }

  /** A repay or withdraw order from before the unwind holds the market's position. */
  predicate StaleIn(seen: seq<Seen>, market: string) {
    exists i :: 0 <= i < |seen| && seen[i].order.status == Pending && !seen[i].order.isBorrow
                && seen[i].order.market == market
  }

  lemma FirstOrRest(seen: seq<Seen>, market: string)
    requires seen != []
    ensures var o := seen[0].order;
            && (ActiveIn(seen, market) <==> (o.status == Active && o.market == market) || ActiveIn(seen[1..], market))
            && (StaleIn(seen, market)
                <==> (o.status == Pending && !o.isBorrow && o.market == market) || StaleIn(seen[1..], market))
  {
    var rest := seen[1..];
    assert forall i :: 0 <= i < |rest| ==> rest[i] == seen[i + 1];
    assert forall i :: 1 <= i < |seen| ==> seen[i] == rest[i - 1];
  }

  /** What one pass does for a market: its active position is repaid, now or before; an owed repay stays owed until
      then. */
  lemma {:induction false} RoundForMarket(b: Books, seen: seq<Seen>, market: string)
    requires AllAccepted(seen)
    ensures var after := RoundFrom(b, seen);
            && (market in after.closedMarkets <==> market in b.closedMarkets || ActiveIn(seen, market))
            && (market in b.owedMarkets && !ActiveIn(seen, market) ==> market in after.owedMarkets)
    decreases |seen|
  {
    hide Key;
    if seen != [] {
      FirstOrRest(seen, market);
      RoundForMarket(Handle(b, seen[0]), seen[1..], market);
    }
  }

  /** The listings let the loop reach the market's position while active: each one before that was fetched and
      showed something open. */
  predicate Reached(world: seq<Snapshot>, market: string)
    decreases |world|
  {
    && world != [] && world[0].Fetched?
    && (ActiveIn(world[0].seen, market) || (AnyOpen(world[0].seen) && Reached(world[1..], market)))
  }

  /** While a repay is owed the loop gives up only on a failed fetch, an empty listing, or the end of its rounds. */
  lemma {:induction false} OwedIsRepaidIfReached(b: Books, world: seq<Snapshot>, market: string)
    requires EveryCloseAccepted(world) && market in b.owedMarkets && market !in b.closedMarkets
    ensures market in RoundsFrom(b, world).closedMarkets <==> Reached(world, market)
    decreases |world|
  {
    hide RoundFrom, ActiveIn, AnyOpen, AllAccepted;
    if world != [] && world[0].Fetched? {
      assert AllAccepted(world[0].seen);
      var after := RoundFrom(b, world[0].seen);
      RoundForMarket(b, world[0].seen, market);
      if ActiveIn(world[0].seen, market) {
        ClosedStays(after, world[1..], market);
      } else if AnyOpen(world[0].seen) {
        assert market in after.owedMarkets - after.closedMarkets;
        OwedIsRepaidIfReached(after, world[1..], market);
      }
    }
  }

  lemma {:induction false} ClosedStaysInRound(b: Books, seen: seq<Seen>, market: string)
    requires market in b.closedMarkets
    ensures market in RoundFrom(b, seen).closedMarkets
    decreases |seen|
  {
    if seen != [] {
      ClosedStaysInRound(Handle(b, seen[0]), seen[1..], market);
    }
  }

  lemma {:induction false} ClosedStays(b: Books, world: seq<Snapshot>, market: string)
    requires market in b.closedMarkets
    ensures market in RoundsFrom(b, world).closedMarkets
    decreases |world|
  {
    hide RoundFrom, AnyOpen;
    if world != [] && world[0].Fetched? {
      ClosedStaysInRound(b, world[0].seen, market);
      ClosedStays(RoundFrom(b, world[0].seen), world[1..], market);
    }
  }

  predicate DistinctKeys(seen: seq<Seen>) {
    forall i, j :: 0 <= i < j < |seen| ==> Key(seen[i].order) != Key(seen[j].order)
  }

  /** The first pass leaves a market held by a stale order owed, unless it repays it. */
  lemma {:induction false} StaleIsOwed(b: Books, seen: seq<Seen>, market: string)
    requires AllAccepted(seen) && DistinctKeys(seen) && StaleIn(seen, market)
    requires forall i :: 0 <= i < |seen| ==> Key(seen[i].order) !in b.cancelledOrders
    ensures market in RoundFrom(b, seen).closedMarkets || market in RoundFrom(b, seen).owedMarkets
    decreases |seen|
  {
    hide Key;
    FirstOrRest(seen, market);
    var next, rest := Handle(b, seen[0]), seen[1..];
    if StaleIn(rest, market) {
      StaleIsOwed(next, rest, market);
    } else {
      RoundForMarket(next, rest, market);
    }
  }

  lemma AcceptedIsHeard(world: seq<Snapshot>, kind: Close, name: string)
    requires EveryCloseAccepted(world)
    ensures AlwaysHeard(world, kind, name)
  {
    hide Key;
  }

  /** With every close accepted, a position active in the first listing is repaid, whatever the later ones show. */
  lemma ActiveIsRepaid(world: seq<Snapshot>, market: string)
    requires EveryCloseAccepted(world)
    requires world != [] && world[0].Fetched? && ActiveIn(world[0].seen, market)
    ensures Closes(RoundsFrom(NOTHING_YET, world).log, Repay, market) == 1
  {
    hide RoundFrom, ActiveIn, AllAccepted, AnyOpen, Closes, Lost;
    assert AllAccepted(world[0].seen);
    RoundForMarket(NOTHING_YET, world[0].seen, market);
    ClosedStays(RoundFrom(NOTHING_YET, world[0].seen), world[1..], market);
    AcceptedIsHeard(world, Repay, market);
    NoneLost(NOTHING_YET, world, Repay, market);
    NoneYet(Repay, market);
    EveryCloseAccounted(world, Repay, market);
  }

  /** With every close accepted, a position held by a stale order is repaid, once, exactly when it turns active in a
      listing that the loop reaches. */
  lemma StaleIsRepaidIfReached(world: seq<Snapshot>, market: string)
    requires EveryCloseAccepted(world)
    requires world != [] && world[0].Fetched? && DistinctKeys(world[0].seen)
    requires StaleIn(world[0].seen, market) && !ActiveIn(world[0].seen, market)
    ensures Closes(RoundsFrom(NOTHING_YET, world).log, Repay, market) == if Reached(world[1..], market) then 1 else 0
  {
    hide RoundFrom, ActiveIn, AllAccepted, AnyOpen, Closes, Lost, Key;
    assert AllAccepted(world[0].seen);
    var after := RoundFrom(NOTHING_YET, world[0].seen);
    RoundForMarket(NOTHING_YET, world[0].seen, market);
    StaleIsOwed(NOTHING_YET, world[0].seen, market);
    StaleIsOpen(world[0].seen, market);
    assert market in after.owedMarkets - after.closedMarkets;
    OwedIsRepaidIfReached(after, world[1..], market);
    AcceptedIsHeard(world, Repay, market);
    NoneLost(NOTHING_YET, world, Repay, market);
    NoneYet(Repay, market);
    EveryCloseAccounted(world, Repay, market);
  }

  lemma StaleIsOpen(seen: seq<Seen>, market: string)
    requires StaleIn(seen, market)
    ensures AnyOpen(seen)
  {
  }

  /** So turning active by the last listing is not enough: when the cancelled order has gone from a listing and the
      position has not come back to it yet, the listing is empty, the loop takes that for done, and the position
      that turns active next is left open. */
  lemma AnEmptyListingEndsTheUnwind()
    ensures var stale := Order("a", 0, "m", false, Pending);
            var active := Order("b", 0, "m", true, Active);
            var world := [Fetched([Seen(stale, Accepted)]), Fetched([]), Fetched([Seen(active, Accepted)]),
                          Fetched([Seen(active, Accepted)]), Fetched([Seen(active, Accepted)]),
                          Fetched([Seen(active, Accepted)])];
            RoundsFrom(NOTHING_YET, world).log == [Submission(Cancel, stale, true)]
  {
    hide Key;
    var stale := Order("a", 0, "m", false, Pending);
    var active := Order("b", 0, "m", true, Active);
    var later := [Fetched([Seen(active, Accepted)]), Fetched([Seen(active, Accepted)]),
                  Fetched([Seen(active, Accepted)]), Fetched([Seen(active, Accepted)])];
    var world := [Fetched([Seen(stale, Accepted)]), Fetched([])] + later;
    var first := RoundFrom(NOTHING_YET, [Seen(stale, Accepted)]);
    OneOrder(NOTHING_YET, Seen(stale, Accepted));
    assert first == Accept(NOTHING_YET, stale);
    assert IsOpen([Seen(stale, Accepted)][0].order);
    assert "m" in first.owedMarkets - first.closedMarkets;
    assert world[1..] == [Fetched([])] + later;
    assert RoundsFrom(first, world[1..]) == first;
  }

  // ---------- position by position ----------

  lemma {:induction false} LogOnlyGrows(b: Books, world: seq<Snapshot>)
    ensures b.log <= RoundsFrom(b, world).log
    decreases |world|
  {
    hide RoundFrom, AnyOpen;
    if world != [] && world[0].Fetched? {
      LogGrows(b, world[0].seen);
      LogOnlyGrows(RoundFrom(b, world[0].seen), world[1..]);
    }
  }

  /** A repay of its own for a position. */
  predicate OwnRepay(log: seq<Submission>, o: Order) {
    Submission(Repay, o, true) in log
  }

  predicate IsActive(seen: seq<Seen>, i: int) {
    0 <= i < |seen| && seen[i].order.status == Active
  }

  /** Active positions of one market in a listing are one and the same. */
  ghost predicate MarketsApart(seen: seq<Seen>) {
    forall i, j :: IsActive(seen, i) && IsActive(seen, j) && seen[i].order.market == seen[j].order.market ==>
                     seen[i].order == seen[j].order
  }

  lemma {:induction false} RoundRepaysEach(b: Books, seen: seq<Seen>, i: nat)
    requires AllAccepted(seen) && MarketsApart(seen) && IsActive(seen, i) && seen[i].order.market !in b.closedMarkets
    ensures OwnRepay(RoundFrom(b, seen).log, seen[i].order)
    decreases |seen|
  {
    hide Key;
    var first, rest := seen[0], seen[1..];
    var next := Handle(b, first);
    LogGrows(next, rest);
    if first.order.status == Active && first.order.market == seen[i].order.market {
      assert IsActive(seen, 0);
      assert next.log[|b.log|] == Submission(Repay, seen[i].order, true);
    } else {
      assert rest[i - 1] == seen[i];
      RestApart(seen);
      RoundRepaysEach(next, rest, i - 1);
    }
  }

  lemma RestApart(seen: seq<Seen>)
    requires seen != [] && MarketsApart(seen)
    ensures MarketsApart(seen[1..])
  {
    var rest := seen[1..];
    forall i, j | IsActive(rest, i) && IsActive(rest, j) && rest[i].order.market == rest[j].order.market
      ensures rest[i].order == rest[j].order
    {
      assert IsActive(seen, i + 1) && IsActive(seen, j + 1);
    }
  }

  /** With every close accepted, each position active in the first listing gets a repay of its own if and only if no two
      of them share a market; of two that do, one is left without. */
  lemma EachPositionIsRepaid(world: seq<Snapshot>)
    requires EveryCloseAccepted(world) && world != [] && world[0].Fetched?
    ensures var seen := world[0].seen;
            (forall i :: IsActive(seen, i) ==> OwnRepay(RoundsFrom(NOTHING_YET, world).log, seen[i].order))
            <==> MarketsApart(seen)
  {
    hide RoundFrom, AllAccepted, AnyOpen, Closes, Lost, Key;
    var seen, log := world[0].seen, RoundsFrom(NOTHING_YET, world).log;
    assert AllAccepted(seen);
    LogOnlyGrows(RoundFrom(NOTHING_YET, seen), world[1..]);
    if MarketsApart(seen) {
      forall i | IsActive(seen, i)
        ensures OwnRepay(log, seen[i].order)
      {
        RoundRepaysEach(NOTHING_YET, seen, i);
      }
    }
    EveryUnwindIsSafe(world);
    forall i, j | IsActive(seen, i) && IsActive(seen, j) && seen[i].order.market == seen[j].order.market
      ensures OwnRepay(log, seen[i].order) && OwnRepay(log, seen[j].order) ==> seen[i].order == seen[j].order
    {
      OneOwnRepay(log, seen[i].order, seen[j].order);
    }
  }

  lemma OneOwnRepay(log: seq<Submission>, a: Order, b: Order)
    requires ConfirmedIsLast(log) && a.market == b.market
    ensures OwnRepay(log, a) && OwnRepay(log, b) ==> a == b
  {
    hide Key;
    if OwnRepay(log, a) && OwnRepay(log, b) {
      var i :| 0 <= i < |log| && log[i] == Submission(Repay, a, true);
      var j :| 0 <= j < |log| && log[j] == Submission(Repay, b, true);
    }
  }

  /** Two positions of one market get one repay between them, in whatever rounds follow. */
  lemma TwoPositionsOneRepay(world: seq<Snapshot>, i: nat, j: nat)
    requires EveryCloseAccepted(world) && world != [] && world[0].Fetched?
    requires IsActive(world[0].seen, i) && IsActive(world[0].seen, j)
    requires world[0].seen[i].order.market == world[0].seen[j].order.market
    requires world[0].seen[i].order != world[0].seen[j].order
    ensures var log := RoundsFrom(NOTHING_YET, world).log;
            && Closes(log, Repay, world[0].seen[i].order.market) == 1
            && !(OwnRepay(log, world[0].seen[i].order) && OwnRepay(log, world[0].seen[j].order))
  {
    hide RoundsFrom, RoundFrom, AllAccepted, Closes, Lost, Key;
    var seen := world[0].seen;
    assert ActiveIn(seen, seen[i].order.market);
    ActiveIsRepaid(world, seen[i].order.market);
    EveryUnwindIsSafe(world);
    OneOwnRepay(RoundsFrom(NOTHING_YET, world).log, seen[i].order, seen[j].order);
  }
}
