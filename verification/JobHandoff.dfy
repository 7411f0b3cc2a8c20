/** Who recovers a job's funds when a reversal comes in: the goroutine that waits for funding and then builds, and
    the reversal, hand over through a registry of running jobs under one lock. A run is any interleaving of their
    steps; what the outside world answers comes with each step. */
module JobHandoff {
  import opened Wrappers

  datatype End = TimedOut | Failed | Opened | Swept | Unwound

  /** Where the goroutine is. Waiting: about to check for a cancel, to ask for funding, to compare the deadline, to
      drop its registration, to sleep, or to sweep. Building: about to open the key, at a stage, in its operation,
      about to ask why the operation failed, or failing. */
  datatype PC =
    | WaitCheck | AskFunded | AskDeadline | GiveUp | Sleep | SweepOnCancel
    | OpenKey | AtStage(stage: nat) | InOperation(stage: nat) | AskWhyFailed | Failing
    | Ended(how: End)

  datatype ReversePC = NotCalled | Marked | Spawning | Returned

  /** `byLoop` and `byReverse` count the recoveries each has begun; `lockedAt` is where the goroutine was when the
      reversal took the lock. */
  datatype State = State(pc: PC, registered: bool, cancelled: bool, reverse: ReversePC, signalled: bool,
                         byLoop: nat, byReverse: nat, lockedAt: Option<PC>)

  /** A step of the goroutine, with the answer it gets where it asks something, or a step of the reversal. */
  datatype Move = Loop(yes: bool) | Reverse

  // ---------- the goroutine ----------

  /** The build's operations in order; true for one the loop checks for a cancel before: the initial buy and the
      head of each leg. A leg picks its market, opens, and trades. A resumed long first trades what is stranded. */
  function Stages(long: bool, traded: bool, done: nat, legs: nat): seq<bool>
    requires done <= legs
  {
    (if long && !traded then [true] else if long then [false] else []) + LegStages(legs - done)
  }

  function LegStages(legs: nat): seq<bool> {
    if legs == 0 then [] else [true, false, false] + LegStages(legs - 1)
  }

  function Recover(s: State, how: End): State {
    s.(pc := Ended(how), byLoop := s.byLoop + 1)
  }

  function LoopStep(stages: seq<bool>, s: State, yes: bool): State {
    match s.pc
    case WaitCheck => s.(pc := if s.cancelled then SweepOnCancel else AskFunded)
    case AskFunded => s.(pc := if yes then OpenKey else AskDeadline)
    case AskDeadline => s.(pc := if yes then GiveUp else Sleep)
    case GiveUp => s.(pc := Ended(TimedOut), registered := false)
    case Sleep => s.(pc := if s.cancelled && yes then SweepOnCancel else WaitCheck)
    case SweepOnCancel => Recover(s.(registered := false), Swept)
    case OpenKey => s.(pc := if yes then AtStage(0) else Failing)
    case AtStage(k) =>
      if k >= |stages| then
        if s.cancelled then Recover(s, Unwound) else s.(pc := Ended(Opened), registered := false)
      else if stages[k] && s.cancelled then Recover(s, Unwound)
      else s.(pc := InOperation(k))
    case InOperation(k) => s.(pc := if yes then AtStage(k + 1) else AskWhyFailed)
    case AskWhyFailed => if s.cancelled then Recover(s, Unwound) else s.(pc := Failing)
    case Failing => s.(pc := Ended(Failed), registered := false)
    case Ended(_) => s
  }

  // ---------- the reversal ----------

  /** It marks the job, then under the lock either cancels and deregisters the goroutine or, finding none, goes on to
      unwind by itself. */
  function ReverseStep(s: State): State {
    match s.reverse
    case NotCalled => s.(reverse := Marked)
    case Marked =>
      if s.registered then
        s.(reverse := Returned, registered := false, cancelled := true, signalled := true, lockedAt := Some(s.pc))
      else s.(reverse := Spawning, lockedAt := Some(s.pc))
    case Spawning => s.(reverse := Returned, byReverse := s.byReverse + 1)
    case Returned => s
  }

  // ---------- runs ----------

  function Step(stages: seq<bool>, s: State, m: Move): State {
    if m.Loop? then LoopStep(stages, s, m.yes) else ReverseStep(s)
  }

  function Run(stages: seq<bool>, s: State, moves: seq<Move>): State
    decreases |moves|
  {
    if moves == [] then s else Run(stages, Step(stages, s, moves[0]), moves[1..])
  }

  /** A goroutine registered and about to wait, or registered and about to build. */
  function Begun(funded: bool): State {
    State(if funded then OpenKey else WaitCheck, true, false, NotCalled, false, 0, 0, None)
  }

  predicate Finished(s: State) {
    s.pc.Ended? && s.reverse == Returned
  }

  /** Where a cancel goes unnoticed if the wait then expires, the key then does not open, or the failure under way
      is then booked: past the last look at the cancel on such a path. */
  predicate Window(pc: PC) {
    pc == AskFunded || pc == AskDeadline || pc == GiveUp || pc == OpenKey || pc == Failing
  }

  predicate GaveUp(pc: PC) {
    pc == Ended(TimedOut) || pc == Ended(Failed)
  }

  predicate Inv(s: State) {
    && (s.cancelled <==> s.signalled) && (s.signalled ==> s.reverse == Returned && !s.registered)
    && (s.lockedAt.Some? <==> s.reverse == Spawning || s.reverse == Returned)
    && (!s.signalled ==> (s.registered <==> !s.pc.Ended?))
    && s.byReverse == (if s.reverse == Returned && !s.signalled then 1 else 0)
    && s.byLoop == (if s.pc == Ended(Swept) || s.pc == Ended(Unwound) then 1 else 0)
    && (s.byLoop > 0 || s.pc == SweepOnCancel ==> s.signalled)
    && (s.signalled ==> s.pc != Ended(Opened) && !s.lockedAt.value.Ended?)
    && (s.reverse == Spawning ==> s.pc.Ended?)
    && (s.reverse == Returned && !s.signalled ==> s.pc.Ended?)
    && (s.signalled && !Window(s.lockedAt.value) ==> !Window(s.pc) && !GaveUp(s.pc))
  }

  lemma StepKeepsInv(stages: seq<bool>, s: State, m: Move)
    requires Inv(s)
    ensures Inv(Step(stages, s, m))
  {
  }

  lemma {:induction false} RunKeepsInv(stages: seq<bool>, s: State, moves: seq<Move>)
    requires Inv(s)
    ensures Inv(Run(stages, s, moves))
    decreases |moves|
  {
    hide Inv, Step;
    if moves != [] {
      StepKeepsInv(stages, s, moves[0]);
      RunKeepsInv(stages, Step(stages, s, moves[0]), moves[1..]);
    }
  }

  /** In every interleaving no two recoveries are begun. When both parties are done, exactly one was, unless the
      reversal signalled a goroutine that then gave up waiting or failed; and that takes a lock taken in the window. */
  lemma OneRecovery(stages: seq<bool>, funded: bool, moves: seq<Move>)
    ensures var s := Run(stages, Begun(funded), moves);
            && s.byLoop + s.byReverse <= 1
            && (Finished(s) ==>
                  && (s.byLoop + s.byReverse == 1 <==> !(s.signalled && GaveUp(s.pc)))
                  && s.lockedAt.Some? && (s.signalled && GaveUp(s.pc) ==> Window(s.lockedAt.value))
                  && (s.byReverse == 1 <==> !s.signalled))
  {
    assert Inv(Begun(funded));
    RunKeepsInv(stages, Begun(funded), moves);
    hide Run;
    FinalCount(Run(stages, Begun(funded), moves));
  }

  lemma FinalCount(s: State)
    requires Inv(s)
    ensures Finished(s) ==> (s.byLoop + s.byReverse == 1 <==> !(s.signalled && GaveUp(s.pc)))
  {
    if Finished(s) {
      match s.pc.how
      case TimedOut => assert s.pc == Ended(TimedOut);
      case Failed => assert s.pc == Ended(Failed);
      case Opened => assert s.pc == Ended(Opened);
      case Swept => assert s.pc == Ended(Swept);
      case Unwound => assert s.pc == Ended(Unwound);
    }
  }

  /** From each place of the window, a lock taken there can be followed by steps that end with nobody recovering. */
  lemma LostFromWindow(stages: seq<bool>, s: State) returns (moves: seq<Move>)
    requires Inv(s) && s.registered && s.reverse == Marked && Window(s.pc)
    ensures var after := Run(stages, s, [Reverse] + moves);
            Finished(after) && after.lockedAt == Some(s.pc) && after.byLoop + after.byReverse == 0
  {
    moves := match s.pc
      case AskFunded => [Loop(false), Loop(true), Loop(true)]
      case AskDeadline => [Loop(true), Loop(true)]
      case GiveUp => [Loop(true)]
      case OpenKey => [Loop(false), Loop(true)]
      case _ => [Loop(true)];
    RunMore(stages, s, Reverse, moves);
    var locked := Step(stages, s, Reverse);
    if s.pc == AskFunded {
      RunMore(stages, locked, Loop(false), [Loop(true), Loop(true)]);
      RunTwo(stages, Step(stages, locked, Loop(false)), Loop(true), Loop(true));
    } else if s.pc == AskDeadline {
      RunTwo(stages, locked, Loop(true), Loop(true));
    } else if s.pc == OpenKey {
      RunTwo(stages, locked, Loop(false), Loop(true));
    } else {
      RunMore(stages, locked, Loop(true), []);
    }
  }

  lemma RunMore(stages: seq<bool>, s: State, m: Move, moves: seq<Move>)
    ensures Run(stages, s, [m] + moves) == Run(stages, Step(stages, s, m), moves)
    ensures moves == [] ==> Run(stages, s, [m]) == Step(stages, s, m)
  {
    assert ([m] + moves)[1..] == moves;
  }

  lemma RunTwo(stages: seq<bool>, s: State, m: Move, n: Move)
    ensures Run(stages, s, [m, n]) == Step(stages, Step(stages, s, m), n)
  {
    RunMore(stages, s, m, [n]);
    RunMore(stages, Step(stages, s, m), n, []);
    assert [m] + [n] == [m, n];
  }

  /** Every place of the window is reached with the reversal about to take the lock. */
  lemma WindowIsReached(stages: seq<bool>, pc: PC) returns (moves: seq<Move>)
    requires Window(pc)
    ensures var s := Run(stages, Begun(false), moves);
            Inv(s) && s.registered && s.reverse == Marked && s.pc == pc
  {
    var last: seq<Move> := match pc
      case AskFunded => []
      case AskDeadline => [Loop(false)]
      case GiveUp => [Loop(false), Loop(true)]
      case OpenKey => [Loop(true)]
      case _ => [Loop(true), Loop(false)];
    var asking := Step(stages, Step(stages, Begun(false), Reverse), Loop(true));
    if |last| == 1 {
      RunMore(stages, asking, last[0], []);
      assert last == [last[0]];
    } else if |last| == 2 {
      RunTwo(stages, asking, last[0], last[1]);
      assert last == [last[0], last[1]];
    }
    RunMore(stages, Step(stages, Begun(false), Reverse), Loop(true), last);
    RunMore(stages, Begun(false), Reverse, [Loop(true)] + last);
    moves := [Reverse] + ([Loop(true)] + last);
    assert Inv(Begun(false));
    RunKeepsInv(stages, Begun(false), moves);
  }

  lemma {:induction false} RunAppend(stages: seq<bool>, s: State, a: seq<Move>, b: seq<Move>)
    ensures Run(stages, s, a + b) == Run(stages, Run(stages, s, a), b)
    decreases |a|
  {
    if a == [] {
      assert a + b == b;
    } else {
      assert (a + b)[0] == a[0] && (a + b)[1..] == a[1..] + b;
      RunAppend(stages, Step(stages, s, a[0]), a[1..], b);
    }
  }

  /** No smaller window will do: for each of its places there is a run in which the lock is taken there and nobody
      recovers. */
  lemma EveryWindowLoses(stages: seq<bool>, pc: PC) returns (moves: seq<Move>)
    requires Window(pc)
    ensures var s := Run(stages, Begun(false), moves);
            Finished(s) && s.lockedAt == Some(pc) && s.byLoop + s.byReverse == 0
  {
    hide Inv, Run;
    var before := WindowIsReached(stages, pc);
    var s := Run(stages, Begun(false), before);
    var after := LostFromWindow(stages, s);
    RunAppend(stages, Begun(false), before, [Reverse] + after);
    moves := before + ([Reverse] + after);
  }

  // ---------- what was asked on the way ----------

  /** Somewhere in the run the goroutine was at `pc` and got this answer. */
  predicate Told(stages: seq<bool>, s: State, moves: seq<Move>, pc: PC, yes: bool) {
    exists i :: 0 <= i < |moves| && moves[i] == Loop(yes) && Run(stages, s, moves[..i]).pc == pc
  }

  lemma ToldMore(stages: seq<bool>, s: State, moves: seq<Move>, m: Move, pc: PC, yes: bool)
    ensures Told(stages, s, moves, pc, yes) ==> Told(stages, s, moves + [m], pc, yes)
    ensures m == Loop(yes) && Run(stages, s, moves).pc == pc ==> Told(stages, s, moves + [m], pc, yes)
  {
    var all := moves + [m];
    assert forall i :: 0 <= i < |moves| ==> all[i] == moves[i];
    assert forall i :: 0 <= i <= |moves| ==> all[..i] == moves[..i];
    assert moves[..|moves|] == moves;
    if Told(stages, s, moves, pc, yes) {
      var i :| 0 <= i < |moves| && moves[i] == Loop(yes) && Run(stages, s, moves[..i]).pc == pc;
      assert all[i] == Loop(yes) && Run(stages, s, all[..i]).pc == pc;
    }
    if m == Loop(yes) && Run(stages, s, moves).pc == pc {
      assert all[|moves|] == Loop(yes) && Run(stages, s, all[..|moves|]).pc == pc;
    }
  }

  predicate Building(pc: PC) {
    pc.OpenKey? || pc.AtStage? || pc.InOperation? || pc.AskWhyFailed? || pc.Failing?
    || pc == Ended(Opened) || pc == Ended(Failed) || pc == Ended(Unwound)
  }

  /** How many operations went through before the goroutine came where it is. */
  function Through(stages: seq<bool>, pc: PC): nat {
    match pc
    case AtStage(k) => k
    case InOperation(k) => k
    case Ended(Opened) => |stages|
    case _ => 0
  }

  /** What a goroutine that is where it is was told before. */
  ghost predicate CameBy(stages: seq<bool>, funded: bool, moves: seq<Move>, pc: PC) {
    var s := Begun(funded);
    && (Building(pc) ==> funded || Told(stages, s, moves, AskFunded, true))
    && (pc == GiveUp || pc == Ended(TimedOut) ==> Told(stages, s, moves, AskDeadline, true))
    && (pc.AtStage? || pc.InOperation? || pc.AskWhyFailed? || pc == Ended(Opened) ==>
          Told(stages, s, moves, OpenKey, true))
    && (forall k :: 0 <= k < Through(stages, pc) ==> Told(stages, s, moves, InOperation(k), true))
    && (pc == Ended(Opened) ==> Through(stages, pc) >= |stages|)
    && (pc == AskWhyFailed ==> exists k :: Told(stages, s, moves, InOperation(k), false))
    && (pc == Failing || pc == Ended(Failed) ==>
          Told(stages, s, moves, OpenKey, false) || exists k :: Told(stages, s, moves, InOperation(k), false))
  }

  lemma StepCameBy(stages: seq<bool>, funded: bool, moves: seq<Move>, m: Move)
    requires CameBy(stages, funded, moves, Run(stages, Begun(funded), moves).pc)
    ensures CameBy(stages, funded, moves + [m], Step(stages, Run(stages, Begun(funded), moves), m).pc)
  {
    hide Run, Told;
    var s := Begun(funded);
    forall pc, yes
      ensures Told(stages, s, moves, pc, yes) ==> Told(stages, s, moves + [m], pc, yes)
      ensures m == Loop(yes) && Run(stages, s, moves).pc == pc ==> Told(stages, s, moves + [m], pc, yes)
    {
      ToldMore(stages, s, moves, m, pc, yes);
    }
  }

  /** A goroutine builds only where the funding was there, or it asked for it and was told so; it gives up waiting only
      after it was told that the deadline passed; it is at a stage only after the key opened and every operation before
      that went through, opens the position only after all did, and fails only after the key or an operation failed. */
  lemma {:induction false} WhatCameBefore(stages: seq<bool>, funded: bool, moves: seq<Move>)
    ensures CameBy(stages, funded, moves, Run(stages, Begun(funded), moves).pc)
    decreases |moves|
  {
    hide CameBy, Step;
    if moves == [] {
      CameFromNothing(stages, funded);
    } else {
      var n := |moves| - 1;
      var before, last := moves[..n], moves[n];
      WhatCameBefore(stages, funded, before);
      StepCameBy(stages, funded, before, last);
      assert before + [last] == moves;
      RunAppend(stages, Begun(funded), before, [last]);
      RunMore(stages, Run(stages, Begun(funded), before), last, []);
      assert [last] + [] == [last];
    }
  }

  lemma CameFromNothing(stages: seq<bool>, funded: bool)
    ensures CameBy(stages, funded, [], Begun(funded).pc)
  {
  }

  // ---------- a cancelled goroutine ----------

  /** A cancelled goroutine that waits does not ask for the funding again: from its sleep, which the cancel may cut
      short, and from the check before it asks, it goes on to sweep within two steps. */
  lemma CancelEndsTheWait(stages: seq<bool>, s: State, yes: bool, again: bool)
    requires s.cancelled && (s.pc == Sleep || s.pc == WaitCheck)
    ensures var next := LoopStep(stages, s, yes);
            && (next.pc == SweepOnCancel || LoopStep(stages, next, again).pc == SweepOnCancel)
            && (next.pc == SweepOnCancel <==> s.pc == WaitCheck || yes)
  {
  }

  /** How many steps a cancelled goroutine can still take. */
  function Left(stages: seq<bool>, pc: PC): nat {
    var n := |stages|;
    match pc
    case WaitCheck => 2
    case AskFunded => 3 * n + 5
    case AskDeadline => 4
    case GiveUp => 1
    case Sleep => 3
    case SweepOnCancel => 1
    case OpenKey => 3 * n + 2
    case AtStage(k) => if k >= n then 1 else 3 * (n - k) + 1
    case InOperation(k) => if k >= n then 3 else 3 * (n - k)
    case AskWhyFailed => 2
    case Failing => 1
    case Ended(_) => 0
  }

  /** A cancelled goroutine ends: each of its steps leaves fewer, whatever it is answered. So a reversal that locks
      outside the window gets its recovery. */
  lemma CancelledLoopEnds(stages: seq<bool>, s: State, yes: bool)
    requires s.cancelled && !s.pc.Ended?
    ensures Left(stages, LoopStep(stages, s, yes).pc) < Left(stages, s.pc)
  {
  }

  /** The first stage from `k` on that looks for a cancel; the end of the stages does. */
  function NextCheck(stages: seq<bool>, k: nat): (c: nat)
    ensures c >= k
    decreases |stages| - k
  {
    if k >= |stages| || stages[k] then k else NextCheck(stages, k + 1)
  }

  /** Where a goroutine cancelled while building can be, if it stops at the check `c`. */
  predicate StopsAt(stages: seq<bool>, s: State, c: nat) {
    && s.cancelled
    && match s.pc
       case AtStage(k) => NextCheck(stages, k) == c
       case InOperation(k) => k < c && NextCheck(stages, k + 1) == c
       case AskWhyFailed => true
       case Ended(_) => true
       case _ => false
  }

  lemma {:induction false} StopsAtCheck(stages: seq<bool>, s: State, c: nat, moves: seq<Move>)
    requires StopsAt(stages, s, c)
    ensures StopsAt(stages, Run(stages, s, moves), c)
    decreases |moves|
  {
    if moves != [] {
      StepStopsAt(stages, s, c, moves[0]);
      hide StopsAt, Step;
      StopsAtCheck(stages, Step(stages, s, moves[0]), c, moves[1..]);
    }
  }

  lemma StepStopsAt(stages: seq<bool>, s: State, c: nat, m: Move)
    requires StopsAt(stages, s, c)
    ensures StopsAt(stages, Step(stages, s, m), c)
  {
  }

  predicate CheckWithin(stages: seq<bool>, i: nat) {
    i + 2 < |stages| ==> stages[i] || stages[i + 1] || stages[i + 2]
  }

  lemma {:induction false} LegsAreChecked(legs: nat, i: nat)
    ensures CheckWithin(LegStages(legs), i)
    decreases legs
  {
    if legs > 0 {
      var rest := LegStages(legs - 1);
      assert LegStages(legs) == [true, false, false] + rest;
      if i >= 3 {
        LegsAreChecked(legs - 1, i - 3);
      } else if i + 2 < |LegStages(legs)| && i > 0 {
        assert LegStages(legs)[3] == rest[0];
      }
    }
  }

  /** Which operations there are: for a long one before the legs, then three to each leg left; and which are looked
      before: a long's first buy, and the first of each leg. */
  lemma StageAt(long: bool, traded: bool, done: nat, legs: nat, i: nat)
    requires done <= legs
    ensures var stages, first := Stages(long, traded, done, legs), if long then 1 else 0;
            && |stages| == first + 3 * (legs - done)
            && (i < first ==> stages[i] == !traded)
            && (first <= i < |stages| ==> (stages[i] <==> (i - first) % 3 == 0))
  {
    var first := if long then 1 else 0;
    LegStageAt(legs - done, if i < first then 0 else i - first);
  }

  lemma {:induction false} LegStageAt(legs: nat, i: nat)
    ensures |LegStages(legs)| == 3 * legs && (i < 3 * legs ==> (LegStages(legs)[i] <==> i % 3 == 0))
    decreases legs
  {
    if legs > 0 {
      LegStageAt(legs - 1, if i < 3 then 0 else i - 3);
    }
  }

  lemma ChecksAreClose(long: bool, traded: bool, done: nat, legs: nat, k: nat)
    requires done <= legs
    ensures NextCheck(Stages(long, traded, done, legs), k) <= k + 2
  {
    var stages, rest := Stages(long, traded, done, legs), LegStages(legs - done);
    LegsAreChecked(legs - done, k);
    if long && k > 0 {
      LegsAreChecked(legs - done, k - 1);
    } else if long && k + 2 < |stages| {
      assert stages[1] == rest[0];
    }
    NextCheckWithin(stages, k);
  }

  lemma NextCheckWithin(stages: seq<bool>, k: nat)
    requires CheckWithin(stages, k)
    ensures NextCheck(stages, k) <= k + 2
  {
    assert NextCheck(stages, k + 2) == k + 2 || !(k + 2 >= |stages| || stages[k + 2]);
  }

  /** A cancelled build soon stops: from any point at most one further operation, of the two that may follow a leg's
      head, is started before it looks for the cancel again. */
  lemma CancelledBuildStops(long: bool, traded: bool, done: nat, legs: nat, s: State, moves: seq<Move>)
    requires done <= legs && s.cancelled
    ensures var stages := Stages(long, traded, done, legs);
            var after := Run(stages, s, moves).pc;
            && (s.pc.AtStage? && after.InOperation? ==> after.stage <= s.pc.stage + 1)
            && (s.pc.InOperation? && after.InOperation? ==> after.stage <= s.pc.stage + 2)
  {
    var stages := Stages(long, traded, done, legs);
    if s.pc.AtStage? || s.pc.InOperation? {
      var k := if s.pc.AtStage? then s.pc.stage else s.pc.stage + 1;
      var c := NextCheck(stages, k);
      ChecksAreClose(long, traded, done, legs, k);
      StopsAtCheck(stages, s, c, moves);
    }
  }

  // ---------- several starters, no reversal ----------

  /** Anything that may start a loop for the job: the open call, a start, a retry, the recovery after a restart. */
  datatype Starter = Asking | Refused | Live(pc: PC)

  datatype Job = Job(registered: bool, starters: seq<Starter>)

  /** `funded`: a starter that registers builds at once, as a retry does and a start that finds the funding there,
      rather than wait for it. */
  datatype Turn = Turn(who: nat, yes: bool, funded: bool)

  /** Registering is refused while somebody is registered, and by the status checks before it (`yes` is false). A
      goroutine that nobody cancels steps as above. */
  function Take(stages: seq<bool>, j: Job, t: Turn): Job
    requires t.who < |j.starters|
  {
    match j.starters[t.who]
    case Refused => j
    case Asking =>
      if j.registered || !t.yes then j.(starters := j.starters[t.who := Refused])
      else Job(true, j.starters[t.who := Live(Begun(t.funded).pc)])
    case Live(pc) =>
      var s := LoopStep(stages, State(pc, j.registered, false, NotCalled, false, 0, 0, None), t.yes);
      Job(s.registered, j.starters[t.who := Live(s.pc)])
  }

  function Turns(stages: seq<bool>, j: Job, ts: seq<Turn>): Job
    requires forall i :: 0 <= i < |ts| ==> ts[i].who < |j.starters|
    decreases |ts|
  {
    if ts == [] then j else Turns(stages, Take(stages, j, ts[0]), ts[1..])
  }

  predicate AtWork(s: Starter) {
    s.Live? && !s.pc.Ended?
  }

  predicate OneOwner(j: Job) {
    && (forall a, b :: 0 <= a < b < |j.starters| ==> !(AtWork(j.starters[a]) && AtWork(j.starters[b])))
    && (j.registered <==> exists a :: 0 <= a < |j.starters| && AtWork(j.starters[a]))
    && (forall a :: 0 <= a < |j.starters| && j.starters[a].Live? ==> j.starters[a].pc != SweepOnCancel)
  }

  lemma TakeKeepsOneOwner(stages: seq<bool>, j: Job, t: Turn)
    requires OneOwner(j) && t.who < |j.starters|
    ensures OneOwner(Take(stages, j, t))
  {
    var after := Take(stages, j, t);
    assert forall a :: 0 <= a < |j.starters| && a != t.who ==> after.starters[a] == j.starters[a];
    if AtWork(after.starters[t.who]) {
      assert AtWork(j.starters[t.who]) || j.starters[t.who] == Asking;
    } else if after.registered {
      var a :| 0 <= a < |j.starters| && AtWork(j.starters[a]);
      assert AtWork(after.starters[a]);
    }
  }

  /** A caller that the status checks let through gets the job exactly when nobody is at work on it: then it starts to
      wait, or to build where the funding is there. */
  lemma FreeIsTaken(stages: seq<bool>, j: Job, t: Turn)
    requires OneOwner(j) && t.who < |j.starters| && j.starters[t.who] == Asking
    ensures var after := Take(stages, j, t).starters[t.who];
            if t.yes && forall a :: 0 <= a < |j.starters| ==> !AtWork(j.starters[a])
            then after == Live(if t.funded then OpenKey else WaitCheck)
            else after == Refused
  {
  }

  /** However the calls that start loops and the loops themselves interleave, no job has two loops at work, and the
      registry says whether it has one. */
  lemma {:induction false} NeverTwoLoops(stages: seq<bool>, j: Job, ts: seq<Turn>)
    requires OneOwner(j)
    requires forall i :: 0 <= i < |ts| ==> ts[i].who < |j.starters|
    ensures OneOwner(Turns(stages, j, ts))
    decreases |ts|
  {
    hide OneOwner;
    if ts != [] {
      TakeKeepsOneOwner(stages, j, ts[0]);
      NeverTwoLoops(stages, Take(stages, j, ts[0]), ts[1..]);
    }
  }
}
