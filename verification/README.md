# Leverage engine, lending sources and web codecs: a verified model

The project models the parts of a Cardano leverage service in which mistakes cost funds, and proves what they keep.
All of it is Dafny; `dafny verify dfyconfig.toml` checks it.

- **Sizing and risk** (`LeveragePlan`, `QuoteHealth`, `LiveLoop`). A loop of borrows is sized greedily under a
  loan-to-value, a leverage cap, a leg count and a minimum borrow; a quote tells the user how far the price may move;
  a monitor follows the position; and the loop that is run on chain sizes its borrows anew from live balances. Proved:
  how far the plan is from the best possible one and exactly when it is not the best, what bounds its debt, when quote
  and monitor agree, when the advice in a refusal works, and how the run relates to the plan.
- **The job engine** (`JobHandoff`, `BuildLoop`, `UnwindLoop`). A goroutine builds a position and a reversal takes it
  down; both survive failures. Proved over all interleavings and histories: who recovers the funds, that no leg is
  opened twice, which sales are missed, what the unwind never does, and exactly which positions it repays.
- **Caching** (`SingleFlight`, `OrderCache`, `DecimalKeys`). Callers share an upstream fetch; order listings are cached
  by several sources in one store. Proved: the flight protocol in every interleaving, that the cache agrees with the
  upstream, and that its keys are injective.
- **Codecs of the web page** (`Cbor`, `CborSkip`, `CardanoTx`, `Bits`, `Bech32Checksum`, `Bech32Field`,
  `AddressCodec`). A CBOR walker and transaction splicer (RFC 8949), and Bech32 with its checksum (BIP-173). Proved for
  all well-formed items and all symbol strings, with the generators fixed by the field and polynomial of BIP-173.
- **Signing and share arithmetic** (`WitnessMerge`, `WithdrawShares`). Proved: that what is signed is what is sent, and
  when a full withdrawal can burn more shares than are held.

`RealArithmetic` and `Wrappers` hold shared arithmetic steps and result types.

## How the source is modelled

Amounts that the source keeps as floating-point numbers are exact reals; 64-bit and 32-bit integers, bytes and share
counts are integers with their wrap-around. Upstream answers, confirmations, clocks and failures are inputs: a field of
an event, a step's answer, or a time. Where the source changes state step by step, a class or a loop does so here, and
is proved against a function of the state that the lemmas are about. Concurrent protocols are transition systems whose
runs are all sequences of steps.

## Where the code and its comments or its intent part

The model follows the code. These are stated as theorems:

- A run can exceed the plan's target and the 1.8 cap: it never reads a tapered last leg (`LiveLoop.RunPassesTarget`,
  `LiveLoop.RunCanPassTheCap`).
- With a minimum borrow the greedy plan is not always the best (`LeveragePlan.GreedyCanFallShort`). The comment on
  `BuildPlan` says the last leg is taken in full when its taper is under the minimum (common/engine/math.go:63-65);
  the code stops instead.
- The quoted move of a short understates the rise that liquidates it, and a market without a threshold is quoted a move
  of 0 (`QuoteHealth.ShortsNeverAgree`, `QuoteHealth.ShortQuotedTooEarly`, `QuoteHealth.LongsAgree`).
- The unwind stops at an empty listing even while it waits for a cancelled repay to turn active
  (`UnwindLoop.AnEmptyListingEndsTheUnwind`), and gives two positions of one market one repay.
- A reversal that takes the lock between a goroutine's last look at its cancel and its deregistration is lost
  (`JobHandoff.EveryWindowLoses`).
- A short that resumes after its last leg's sale failed opens without it (`BuildLoop.ResumedShortsSkipASale`,
  `BuildLoop.EverySaleExactly`).
- The least leverage that a refusal advises is printed to the nearest hundredth and may be rounded below what works
  (`QuoteHealth.PrintedAdviceWorks`, `QuoteHealth.PrintedAdviceCanFail`).
- A cancel that was submitted but not confirmed in time, or a repay whose answer was lost, is taken for a failed one: it
  is made again, or the unwind ends as if nothing had been closed (`UnwindLoop.UnconfirmedCloseIsRepeated`,
  `UnwindLoop.AtMostOneClose`).
- A build left running by a restart goes on only once its address holds half the funding again, and nothing else takes
  it up (`BuildLoop.WhenARestartGoesOn`).
- A second upstream fetch can start within an entry's lifetime, for there is no second look at the cache under the lock
  (`SingleFlight.RefetchesExactly`, `SingleFlight.TwoFetchesInOneLifetime`).
- The page says its transaction helper "falls back gracefully on malformed input" (web/index.html:1964); it does not,
  and it works exactly for one-byte array headers (`CardanoTx.SpliceGuard`, `CardanoTx.WideHeaderReplacesBody`).
- The one share held back from a full withdrawal does not make up for rounding in pools with fewer than six decimals
  and at most a quarter unit a share (`WithdrawShares.SafeExactly`), for a rate that fell by two shares' worth over the
  shares issued (`WithdrawShares.SafeAtSixDecimals`), nor for one that could not be read while a pool's units exceed its
  shares by two or more (`WithdrawShares.UnreadPoolSafeExactly`).

## Model

| member | source | states |
|---|---|---|
| CborSkip.ReadArgument | web/index.html:1974-1987 | the argument of an item's head: the low bits, or 1, 2, 4 or 8 bytes after it read big-endian; none past the end of the input |
| CborSkip.CborSkip | web/index.html:1973-2007 | the recursive walker computes the position function `Skip`, which `SkipItem` then characterises; reserved low bits 28 to 30 count as length 0, as in the page |
| CborSkip.CborSkipMany | web/index.html:1996-2003 | walking `count` items, or `2 * count` for a map, one after another |
| CborSkip.SkipItem | web/index.html:1973-2007 | for every item that RFC 8949 calls well formed (all argument widths, indefinite lengths, tags, simple values and floats), and any bytes around it, the walker returns exactly the position after the item |
| CborSkip.ReservedIsEmpty | web/index.html:1973-2007 | an item whose low bits are the reserved 28 to 30 is walked as its first byte alone, and a reserved tag as that byte and the item after it |
| CborSkip.SkipItems | web/index.html:1996-2003 | the same for any run of items |
| CborSkip.SkipOpenItems | web/index.html:1988-1992 | the same for items up to a break byte |
| CborSkip.SkipChunks | web/index.html:1988-1992 | the same for the chunks of an indefinite-length string |
| CborSkip.EncodingIsPrefixFree | web/index.html:1973-2007 | no encoding is a proper prefix of another, so the walker's cuts are the only ones |
| CardanoTx.HexToBytes | web/index.html:682-688 | two digits at a time to bytes; a lone last digit is a byte of its own; none when a character is not a digit |
| CardanoTx.BytesToHex | web/index.html:1967-1969 | bytes to two lower-case digits each |
| CardanoTx.HexRoundTrip | web/index.html:682-688 | reading back the digits written for any bytes gives those bytes |
| CardanoTx.HexIsRead | web/index.html:682-688 | what can be read: exactly texts of hexadecimal digits, two to a byte, letters of either case alike |
| CardanoTx.LoneDigit | web/index.html:684-686 | a last digit that stands alone is a byte of its own |
| CardanoTx.CopyInto | web/index.html:2025-2028 | copying into a byte array changes exactly the target range |
| CardanoTx.CombineCardanoTx | web/index.html:2010-2030 | the splice in full, with its refusals: not hexadecimal, empty, not an array (naming the major type), input ending inside an item |
| CardanoTx.OnlyArraysAreSpliced | web/index.html:2013-2016 | every well-formed item that is not an array is refused with its major type, and no input as such |
| CardanoTx.SpliceReplacesWitnessSet | web/index.html:2010-2030 | for every array of 2 to 23 well-formed elements behind a one-byte header, only the second element is replaced: header, body and tail keep their bytes |
| CardanoTx.SpliceIsUpdate | web/index.html:2010-2030 | splicing in the encoding of an item yields the encoding of the array with its second element replaced |
| CardanoTx.WideHeaderReplacesBody | web/index.html:2016-2022 | behind a two-byte array header it is the body that gets replaced: for every such transaction with fewer than 24 elements |
| CardanoTx.WideHeaderFails | web/index.html:2016-2022 | behind any array header of more than one byte, what is put in starts at the third byte, which belongs to the header or the body |
| CardanoTx.SpliceGuard | web/index.html:2010-2030 | for every array of 2 to 23 elements, definite in any width or indefinite, the splice replaces exactly the second element for whatever is put in, if and only if the header is one byte |
| Bech32Checksum.Polymod | web/index.html:636-645 | the loop over symbols and generators computes the register function `Run` |
| Bech32Checksum.FeedbackIsSum | web/index.html:642 | the generators picked by the top bits are added to the register, whatever it holds |
| Bech32Checksum.ShiftLinear | web/index.html:639-643 | one step without its symbol is linear over GF(2) |
| Bech32Checksum.StepInjective | web/index.html:639-643 | one step loses nothing: two registers below 2^30 that differ still differ after the same symbol |
| Bech32Checksum.RunRange | web/index.html:636-645 | every register stays below 2^30, so 32-bit integers never wrap |
| Bech32Checksum.RunIsSum | web/index.html:636-645 | the register after any symbols is the sum of a run over zeros and a run from the empty register |
| Bech32Checksum.PackedRun | web/index.html:636-645 | up to six symbols from an empty register are only packed into it, in order |
| Bech32Checksum.ChecksumVerifies | web/index.html:653-659 | for every prefix and every 5-bit data, the register over prefix, data and the six checksum symbols is 1, as BIP-173 (section Checksum) requires |
| Bech32Checksum.BurstDetected | web/index.html:636-645 | words of any length that differ only within six neighbouring symbols leave different registers |
| Bech32Checksum.SingleErrorDetected | web/index.html:636-645 | no word that differs from a valid one in exactly one symbol is valid, at any length |
| Bech32Checksum.ExpandedAt | web/index.html:646-652 | position by position what the prefix expands to: the high bits of each character, a zero, the low five bits of each |
| Bech32Field.ShiftIsFieldLinear | web/index.html:637-643 | a step of the register is linear over GF(32) with the field polynomial of BIP-173: doubling all six elements before it doubles them after it |
| Bech32Field.GeneratorPolynomial | web/index.html:637 | a one followed by six zeros leaves the generator polynomial of BIP-173; with linearity this fixes all five generators |
| AddressCodec.ConvertBits | web/index.html:660-675 | refused exactly when a value does not fit its width; otherwise the values read as one number, padded or cut, and regrouped, in spite of a 32-bit accumulator that wraps |
| AddressCodec.TakeGroups | web/index.html:668-671 | the inner loop moves every whole group from the accumulator to the output |
| AddressCodec.Flush | web/index.html:673 | what is left becomes one group filled up with zero bits, or is dropped |
| AddressCodec.RegroupValue | web/index.html:660-675 | the output read in the new base is the input read in the old one shifted left by fewer zero bits than a group, and its length is the least that holds the input |
| AddressCodec.RegroupInjective | web/index.html:660-675 | regrouping into narrower digits is injective: the padding never hides where the data ended |
| AddressCodec.ExpandPrefix | web/index.html:646-652 | high bits of each character at its place, a zero, then the low five bits of each |
| AddressCodec.CreateChecksum | web/index.html:653-659 | the six symbols cut from the final register are the checksum that `ChecksumVerifies` is about |
| AddressCodec.Bech32Encode | web/index.html:676-681 | prefix, separator and the letters of data and checksum |
| AddressCodec.PublishedText | web/index.html:676-681 | the prefix "a" without data gives "a12uel5l", which BIP-173 lists as valid |
| AddressCodec.CardanoAddrFromCborHex | web/index.html:689-702 | from the wallet's hexadecimal to Bech32 text, through header removal and regrouping |
| AddressCodec.HeaderDropped | web/index.html:689-696 | the preferred byte-string header of RFC 8949 (section 4.1) is undone, for every length below 2^32 |
| AddressCodec.BareIsKept | web/index.html:691-696 | bytes that do not begin with such a header are kept; what is too short for its header is empty |
| AddressCodec.LettersInjective | web/index.html:679 | different symbols are written as different letters |
| AddressCodec.AddressesDistinct | web/index.html:698-702 | two address payloads that differ never get the same Bech32 text |
| AddressCodec.AddressVerifies | web/index.html:698-702 | read back, an address is "addr", a separator, symbols that hold the payload's bits and fewer than five zeros, and six more that leave 1 in the register |
| AddressCodec.WalletAddressesDistinct | web/index.html:689-702 | end to end: the wallet's hexadecimal of two addresses gives the same text if and only if the addresses are the same |
| LeveragePlan.BuildPlan | common/engine/math.go:69-143 | refusals exactly as coded (capital, direction, market loan-to-value, in that order); otherwise the plan of the specification function, whose properties follow |
| LeveragePlan.BuildLegs | common/engine/math.go:105-139 | the loop over exposure multiples computes the borrows that a recursion over debt in units describes, and its exposure is 1 plus debt over capital |
| LeveragePlan.BorrowsKeep | common/engine/math.go:109-139 | every leg is positive, within the loan-to-value of what is held, and clears the minimum; the debt never passes the goal |
| LeveragePlan.OnlyLastTapered | common/engine/math.go:113-123 | every leg borrows in full except possibly the last, which then lands exactly on the target |
| LeveragePlan.StopsOnlyWhenNothingFits | common/engine/math.go:113-131 | a plan short of both the target and eight legs stopped because no borrow that meets the minimum fits as a next leg |
| LeveragePlan.DebtBound | common/engine/math.go:109-139 | what is borrowed is within the loan-to-value of everything ever held but the last proceeds |
| LeveragePlan.NoLoopDoesBetter | common/engine/math.go:105-139 | no loop allowed on the same terms, from no more collateral and debt, ends more than the slack above the plan, or more than one minimum borrow |
| LeveragePlan.PlanIsOptimal | common/engine/math.go:69-143 | with no minimum borrow, no sequence of at most eight allowed borrows exceeds the plan's debt by more than 1e-9 of the capital |
| LeveragePlan.WhenAPlanFallsShort | common/engine/math.go:105-139 | some allowed loop borrows more than the plan and the slack exactly when, for some leg k the loop may have, k - 1 full legs leave less than the minimum to the goal, leg k in full would reach it, and k full legs of part of the capital that land on the goal all clear the minimum: a condition on the request alone |
| LeveragePlan.PlanMissesExactly | common/engine/math.go:105-139 | that condition on the request says where the plan itself stops |
| LeveragePlan.PlanOwes | common/engine/math.go:105-139 | what a plan owes in closed form of its request: as many full legs as are needed, fit the goal and clear the minimum, then what is left to the goal if that clears it |
| LeveragePlan.TargetIsNearest | common/engine/math.go:76-100 | the target is the requested leverage, or the nearest figure between 1, 1.8 and the ceiling of endless looping |
| LeveragePlan.EightLegs | common/engine/math.go:103-105 | a family of requests that are planned eight legs where a ninth would clear the minimum and stay under the target |
| LeveragePlan.PlanWithMinimum | common/engine/math.go:69-143 | with a minimum the plan is less than one minimum borrow short of every allowed loop, and within the slack of all of them exactly when that condition fails |
| LeveragePlan.GreedyCanFallShort | common/engine/math.go:113-131 | a concrete request whose plan borrows 375 while 370 and then 20 would have reached the target of 390 |
| LeveragePlan.PlansAreBounded | common/engine/math.go:75-142 | debt at most the leg loan-to-value times exposure less the last borrow; achieved at most target at most 1.8, and below 1/(1 - loan-to-value) |
| LeveragePlan.LegIs | common/engine/math.go:132-138 | each leg supplies what the leg before it borrowed and records the running exposure |
| QuoteHealth.MakeQuote | common/engine/engine.go:146-216 | errors of the plan first, then the two refusals, then the quote |
| QuoteHealth.FeeReserveFor | common/engine/engine.go:56-62 | the reserve covers base plus per-loop fees and never less than the floor |
| QuoteHealth.ReserveIsLeast | common/engine/engine.go:56-62 | the reserve is the least amount that meets both of its lower bounds |
| QuoteHealth.QuoteSays | common/engine/engine.go:194-216 | what a quote says beside its plan: loops, what must be sent with the reserve, and a note exactly when the exposure misses the leverage asked for by more than a thousandth |
| QuoteHealth.ShortInFull | common/engine/engine.go:194-216 | a short quoted with one loop, two transactions, a reserve of 30 and 1030 to be sent |
| QuoteHealth.LongInFull | common/engine/engine.go:146-216 | a long on a market without loan-to-value or threshold: three transactions, one half taken for the loan-to-value, no move quoted |
| QuoteHealth.MinimumInFull | common/engine/engine.go:160-183 | a market's own minimum counts where it is above 20; the reserve of two loops and of three |
| QuoteHealth.OwnLTV | common/engine/engine.go:150-158 | legs are sized by three quarters of the market's loan-to-value, of one half where that is out of range |
| QuoteHealth.FirstLeg | common/engine/math.go:105-131 | a plan has a leg exactly when the target asks for one and both a full first borrow and what the target leaves clear the minimum |
| QuoteHealth.TooSmallIsExact | common/engine/engine.go:172-178 | "position too small" is said exactly when leverage was asked for and no leverage at all yields a leg at that capital |
| QuoteHealth.AdviceWorks | common/engine/engine.go:179-183 | the figure behind "leverage too low" is the least leverage that works: under 1.8 and under the loan-to-value ceiling, above the request, and a plan has a leg exactly from there on |
| QuoteHealth.PrintedAdviceWorks | common/engine/engine.go:179-183 | the figure as printed, to the nearest hundredth: a request at it has a leg exactly when the hundredths of minimum borrow over capital are not rounded down |
| QuoteHealth.PrintedAdviceCanFail | common/engine/engine.go:179-183 | a concrete request told to raise its leverage to 1.05, at which there is no leg |
| QuoteHealth.PrintedIsNearest | common/engine/engine.go:179-183 | a figure is printed as the nearest hundredth, of two equally near as the even one |
| QuoteHealth.PriceOf | common/engine/health.go:30-47 | a price is positive and is the probe amount over its output; zero output and failed probes are errors |
| QuoteHealth.Position.RefreshHealth | common/engine/health.go:92-131 | what each poll sets, when it skips, what stays when there is no price, and that a failed save still leaves the new values in the job |
| QuoteHealth.ProfitIs | common/engine/health.go:110-118 | profit on the user's capital is what the exposure gains with the price, and for a short what it loses; so it has the sign of the move, or the opposite |
| QuoteHealth.DefaultHealth | common/engine/health.go:104-108 | without a threshold health on entry is four fifths of the exposure over the debt |
| QuoteHealth.HealthIsRevalued | common/engine/health.go:100-116 | the monitor's formula is the health factor of the revalued position: of its collateral for a long, of its debt for a short |
| QuoteHealth.EntryIsSafe | common/engine/health.go:100-104 | entry health exceeds threshold over 0.75 of the market loan-to-value: above 4/3 (and the warning line) when the threshold is at least the loan-to-value, above 1 under the 0.8 fallback |
| QuoteHealth.TripIsInverse | common/engine/math.go:159-169 | the quoted trip price is the inverse of entry health, and is 1 exactly when debt is the threshold's share of exposure |
| QuoteHealth.BothViews | common/engine/engine.go:194 | what monitor and quote say at any price, in terms of entry health and trip price |
| QuoteHealth.LongsAgree | common/engine/math.go:159-169 | for a long, health is at most 1 exactly at moves at or below the quoted one, at every price, if and only if the market reports a positive threshold |
| QuoteHealth.ShortsAreQuotedEarly | common/engine/math.go:159-169 | for a short, a rise below the quoted one never liquidates; quote and monitor agree at every price if and only if debt already is the threshold's share of exposure |
| QuoteHealth.ShortsDifferBetween | common/engine/health.go:106-118 | quote and monitor of a short differ exactly at the prices from the quoted rise up to the entry health |
| QuoteHealth.ShortsNeverAgree | common/engine/math.go:159-169 | in every market whose threshold is at least the legs' loan-to-value, or that reports none, there are such prices for every short that owes anything |
| QuoteHealth.ShortsAgreeExactly | common/engine/math.go:159-169 | told from the request: the two agree at every price if and only if the legs it gets come to the debt at which health is 1 on entry |
| QuoteHealth.ShortQuotedTooEarly | common/engine/math.go:159-169 | a concrete short that is quoted liquidation on a rise of 62 % where the monitor sees it on one of 160 %; they differ at every price between |
| LiveLoop.TempWallet.OpenLeg | common/engine/engine.go:708-771 | one lend order: supply all that is free, borrow the leg's loan-to-value of it; what changes when it is refused, not submitted, undelivered or delivered |
| LiveLoop.TempWallet.TradeAll | common/engine/engine.go:806-862 | one swap of everything free, with the same outcomes |
| LiveLoop.TempWallet.RunLegs | common/engine/engine.go:659-685 | legs one after another, stopping at the first that fails |
| LiveLoop.TempWallet.BuildPosition | common/engine/engine.go:635-685 | a long's first buy, then the legs |
| LiveLoop.LendMoves | common/engine/engine.go:708-771 | what a lend order does to each balance, for every outcome; it goes on exactly if something is free, the size is known and positive, and the order is delivered |
| LiveLoop.SwapMoves | common/engine/engine.go:806-862 | the same for a swap of all that is free |
| LiveLoop.NothingAfterAFailure | common/engine/engine.go:659-685 | after a leg that does not go through nothing more is done |
| LiveLoop.FailedBuyEndsTheRun | common/engine/engine.go:637-647 | nor after a long's first buy that does not fill |
| LiveLoop.ReserveIsKept | common/engine/engine.go:708-862 | no run spends the fee reserve or overdraws the target, whatever the prices and whatever fails |
| LiveLoop.BorrowIsAtLTV | common/engine/engine.go:1355-1374 | whichever way the borrow is sized, it is the loan-to-value of the collateral at the lender's prices, of the same unit, or of the estimate |
| LiveLoop.DebtsAreAtLTV | common/engine/engine.go:708-771 | under any slippage, price moves and failures every position opened owes exactly the leg loan-to-value of its collateral, and a leg opens at most one |
| LiveLoop.UnsoldLegStarvesTheNext | common/engine/engine.go:716-725 | a leg whose proceeds were not sold leaves nothing to supply, so the next leg fails and changes nothing |
| LiveLoop.CatchUpIsTheSale | common/engine/engine.go:648-657 | selling what is free later, as a resumed long does, comes to the very sale that was missed |
| LiveLoop.LegAtPrice | common/engine/engine.go:708-771 | at a steady price a leg supplies what is held, owes the loan-to-value of it, and holds that next |
| LiveLoop.LegsAtPrice | common/engine/engine.go:659-685 | at a steady price any number of legs borrow in full, leg after leg |
| LiveLoop.PlanButForTaper | common/engine/math.go:113-123 | a plan's borrows are those full ones but for a tapered last leg, which only a plan that lands on its goal has |
| LiveLoop.RunReproducesPlan | common/engine/engine.go:635-685 | at a steady price without failures the run supplies the plan's amounts on every leg and borrows them on every leg but a tapered last, for longs and shorts alike; total debt is the plan's plus the taper |
| LiveLoop.RunPassesTarget | common/engine/engine.go:635-685 | the exposure a steady run ends with is above the target exactly when the last leg was tapered, above 1.8 exactly when as many full legs as the plan has borrow more than 0.8 of the capital, and always below the loan-to-value ceiling |
| LiveLoop.RunCanPassTheCap | common/engine/engine.go:726-729 | at a market loan-to-value of 0.8, every steady run of a plan for 1.8x reaches 1.96x, for any capital of at least 100 |
| UnwindLoop.CloseOpenOrders | common/engine/engine.go:950-1087 | six rounds over listings that may fail: the submissions made, and whether any was |
| UnwindLoop.CloseRound | common/engine/engine.go:976-1055 | one pass over a listing and its three books |
| UnwindLoop.EveryUnwindIsSafe | common/engine/engine.go:962-1086 | whatever listings and failures occur: nothing is closed again once its close is confirmed, no confirmed repay is cancelled, the books are what the log of closes says, and no market is both repaid and still owed a repay |
| UnwindLoop.ClosedAnyIsConfirmed | common/engine/engine.go:1037-1087 | something is reported closed exactly when a close is confirmed in the log; the engine counts those |
| UnwindLoop.GoesOnExactly | common/engine/engine.go:1057-1078 | after a listing the loop goes on exactly if that showed an open order, and a close of it was confirmed or a stale order was cancelled whose market has not been repaid |
| UnwindLoop.SixthRoundRepays | common/engine/engine.go:923-967 | a run of six rounds in which the sixth listing still gets its repay |
| UnwindLoop.AtMostOneClose | common/engine/engine.go:1037-1078 | once the lender has taken one close of an order, with any number of rounds left: whatever later listings show and whatever fails it takes no other, if and only if that close was confirmed, or the order is a stale one whose market is repaid by then, or no round follows |
| UnwindLoop.HeardOfIsClosedOnce | common/engine/engine.go:962-1052 | an order none of whose cancels goes unconfirmed is cancelled at most once, and a market likewise repaid |
| UnwindLoop.UnconfirmedCloseIsRepeated | common/engine/engine.go:1037-1078 | a cancel or a repay that the lender took and the engine was not told of is made again if a second round comes about, and if not the unwind reports nothing closed |
| UnwindLoop.NothingSubmitted | common/engine/engine.go:1069-1078 | a pass in which no close went through found every open order cancelled, being repaid, or failing to build, to submit or to be confirmed |
| UnwindLoop.QuietExit | common/engine/engine.go:1057-1078 | the same of the last listing whenever the unwind stops with orders open and nothing to wait for |
| UnwindLoop.ActiveIsRepaid | common/engine/engine.go:995-1013 | when submissions succeed, a market active in the first listing gets exactly one repay |
| UnwindLoop.EachPositionIsRepaid | common/engine/engine.go:996-1013 | when closes succeed, each active position of the first listing gets a repay of its own if and only if no two of them share a market |
| UnwindLoop.StaleIsRepaidIfReached | common/engine/engine.go:1041-1078 | when submissions succeed, a market held by a stale order gets exactly one repay if and only if it is active in a listing before which every listing was fetched and showed something open |
| UnwindLoop.AnEmptyListingEndsTheUnwind | common/engine/engine.go:1057-1059 | a concrete run in which a position that turns active in the third listing is never repaid, because the second was empty |
| UnwindLoop.TwoPositionsOneRepay | common/engine/engine.go:996-998 | two active positions in one market get one repay between them, over all rounds |
| JobHandoff.StepKeepsInv | common/engine/engine.go:389-432 | what every step of the goroutine and of the reversal keeps: who is registered, who was signalled, and how many recoveries each has begun |
| JobHandoff.OneRecovery | common/engine/engine.go:458-490 | in every interleaving of one goroutine and one reversal at most one recovery begins; exactly one, unless the goroutine was signalled and then gave up waiting or failed, which takes a lock taken in the window |
| JobHandoff.WhatCameBefore | common/engine/engine.go:389-417 | in every run: a goroutine builds only after it was told of the funding, gives up only after the deadline, is at a stage or opens only after the key opened and every operation before went through, fails only after one did not |
| JobHandoff.StageAt | common/engine/engine.go:635-685 | which operations a run has, and which of them it looks for a cancel before |
| JobHandoff.CancelEndsTheWait | common/engine/engine.go:391-417 | a cancelled goroutine that waits sweeps within two steps and does not ask for the funding again |
| JobHandoff.EveryWindowLoses | common/engine/engine.go:404-409 | no smaller window will do: for each place in it there is a run from the start in which the lock is taken there and nobody recovers |
| JobHandoff.CancelledLoopEnds | common/engine/engine.go:389-417 | a signalled goroutine takes boundedly many more steps, whatever it is answered |
| JobHandoff.CancelledBuildStops | common/engine/engine.go:659-685 | after a cancel a build starts at most the operations up to the next leg head |
| JobHandoff.TakeKeepsOneOwner | common/engine/engine.go:323-343 | registering is exclusive, and every end of a goroutine drops the registration |
| JobHandoff.NeverTwoLoops | common/engine/engine.go:323-343 | with no reversal, no interleaving of any number of open, start, retry and recovery calls gives a job two loops at work |
| JobHandoff.FreeIsTaken | common/engine/engine.go:323-343 | a caller let through by the status checks gets the job exactly when nobody is at work on it |
| BuildLoop.Job.CountStepKind | common/engine/engine.go:1472-1480 | the number of steps recorded of a kind |
| BuildLoop.Job.Submit | common/engine/engine.go:1242-1256 | a transaction is recorded once submitted, before it settles |
| BuildLoop.Job.FailOrUnwind | common/engine/engine.go:611-618 | an error fails the job, a reversal leaves it reversing, a restart leaves it as it is |
| BuildLoop.Job.Run | common/engine/engine.go:600-704 | a run resumed from its records, which keeps the job's invariant |
| BuildLoop.Job.BuildLegs | common/engine/engine.go:659-704 | at every loop head the index is the number of borrows recorded |
| BuildLoop.LegKeeps | common/engine/engine.go:665-684 | a leg that goes through adds one borrow, for that leg, and then its sale |
| BuildLoop.RunKeeps | common/engine/engine.go:625-704 | a run keeps records and chain in step, borrows in order and within the plan |
| BuildLoop.RunEnds | common/engine/engine.go:600-704 | where a run ends, for every place it can, in terms of what it meets: the status it leaves, by error, reversal or restart, and exactly what it has put on the chain by then |
| BuildLoop.OpensExactly | common/engine/engine.go:659-704 | a run opens the position if and only if the key opens and from where it resumes nothing is cancelled, missing or unsettled |
| BuildLoop.CancelReverses | common/engine/engine.go:611-701 | a run ends reversing if and only if it meets a cancel: before the buy, at a leg head, after the last leg, or as the cause of a failed operation |
| BuildLoop.SubmissionRecords | common/engine/engine.go:1242-1256 | the steps recorded for a transaction not submitted, submitted, and settled |
| BuildLoop.EveryHistory | common/engine/engine.go:565-704 | through any failures, restarts and retries: each leg is borrowed for at most once, in order and within the plan; a long buys at most once and first; open means exactly one borrow for every leg |
| BuildLoop.WhenARestartGoesOn | common/engine/engine.go:323-343 | a job left running by a restart goes on exactly with the first start or recovery that finds half the funding at its address; retries and other starts leave it as it is |
| BuildLoop.FailedIsTakenUp | common/engine/engine.go:572-592 | a failed job is run again by a retry or by a start that finds the funding, and by nothing else |
| BuildLoop.DoneStays | common/engine/engine.go:565-592 | a job that is open or reversing is never run again |
| BuildLoop.RunSells | common/engine/engine.go:665-684 | a run sells a leg's proceeds exactly when it borrows for the leg, the borrow settles and the sale goes out; for legs borrowed for before it does nothing |
| BuildLoop.EverySaleExactly | common/engine/engine.go:625-704 | in every history that ends open, a leg's sale is on the chain if and only if no run that submitted its borrow had it unsettled or its sale not sent |
| BuildLoop.LongsCatchUp | common/engine/engine.go:648-657 | a resumed long with base left over sells that before anything else, or does not get to open |
| BuildLoop.SmoothRunMatchesQuote | common/engine/engine.go:195-199 | an uninterrupted run opens the position and records exactly as many trades and borrows as the quote's transaction count |
| BuildLoop.ResumedShortsSkipASale | common/engine/engine.go:637-657 | a short whose last sale failed opens on every undisturbed retry with that sale never made |
| SingleFlight.MoveKeepsInv | common/sources/cache.go:79-119 | what every step keeps: one leader per fetch, at the place its fetch is at, and the flight taken exactly while unpublished |
| SingleFlight.EveryRun | common/sources/cache.go:79-119 | at most one upstream fetch is out; a waiter returns what its leader published and returned, after it did; no waiter is left without a leader to wake it; only successes are cached |
| SingleFlight.PublishedStays | common/sources/cache.go:104-109 | what a leader publishes never changes afterwards |
| SingleFlight.UpstreamIsPassedOn | common/sources/cache.go:100-117 | in every run: what a fetch publishes, its leader and waiters return and the cache holds of it is the answer the upstream gave it; a failure is passed on and never cached; a hit is a success some fetch was given |
| SingleFlight.ServedForOneLifetime | common/sources/cache.go:84-87 | a caller about to look is answered with the last listing written, exactly if that was at most one lifetime ago |
| SingleFlight.NobodyIsStuck | common/sources/cache.go:90-119 | in every run a step of a caller brings it nearer to its return, unless it waits for a fetch not yet woken, whose leader is not waiting; a woken waiter returns |
| SingleFlight.CancelledWaiterReturns | common/sources/cache.go:95-99 | a waiter whose request is cancelled returns that error, and nothing else changes |
| SingleFlight.RefetchesExactly | common/sources/cache.go:84-104 | in every run a caller starts a fetch while an unexpired entry stands if and only if it looked before that entry was written and takes the lock with no flight pending |
| SingleFlight.LookingInTimeNeverFetches | common/sources/cache.go:84-87 | a caller who looks while an entry stands is answered from it and never fetches |
| SingleFlight.TwoFetchesInOneLifetime | common/sources/cache.go:84-116 | a concrete run with two fetches at one moment, whatever the lifetime: the second caller looked before the write and took the lock after it |
| DecimalKeys.WriteItoa | common/sources/cache.go:208-228 | filling twenty bytes backwards gives the decimal numeral of every 64-bit number but the lowest, which comes out as a bare sign; twenty bytes are always enough |
| DecimalKeys.DigitsDenote | common/sources/cache.go:217-222 | the digits written denote the number |
| DecimalKeys.ParseInt64 | common/wallet/client.go:196-205 | reading takes digits up to the first other character, wrapping at 64 bits |
| DecimalKeys.ParseInvertsItoa | common/wallet/client.go:196-205 | reading inverts writing on non-negative numbers, whatever non-digit follows, and gives 0 on negative ones |
| DecimalKeys.ItoaIsInjective | common/sources/cache.go:208-228 | different 64-bit numbers are written differently, the lowest included |
| DecimalKeys.CacheKeyIsInjective | common/sources/cache.go:144-146 | sources whose names have no colon never share a key, for any addresses and limits |
| DecimalKeys.ColonNamesCollide | common/sources/cache.go:144-146 | every name with a colon shares its keys with another source |
| DecimalKeys.OutputKeyIsInjective | common/engine/engine.go:979 | the unwind's order key determines transaction hash and output index |
| OrderCache.MemoryOrderCache.Get | common/sources/memory_cache.go:58-66 | a hit exactly for an entry whose expiry has not passed |
| OrderCache.MemoryOrderCache.Set | common/sources/memory_cache.go:68-73 | the entry is put in place and nothing else changes |
| OrderCache.CachedSource.FetchOrders | common/sources/cache.go:126-142 | the answer and the cache afterwards, for hits, refreshes, errors, and sources that do not cache |
| OrderCache.RefreshIsFresh | common/sources/cache.go:126-136 | in every history a call that asks for fresh data, or whose source does not cache, is answered by the upstream |
| OrderCache.FetchedIsServed | common/sources/cache.go:126-142 | what such a call, or one that found nothing unexpired, is told is what later calls with its question are told, until it expires or another stores one |
| OrderCache.InterleavedRefreshIsFresh | common/sources/cache.go:126-136 | the first of these in every interleaving |
| OrderCache.InterleavedFetchIsServed | common/sources/cache.go:126-142 | and the second |
| OrderCache.EntryIsLast | common/sources/cache.go:137-141 | after any calls an entry is that of the last call that stored under its key |
| OrderCache.HitIsRecent | common/sources/cache.go:131-136 | over a changing upstream a hit is the last successful answer stored for the same question, at most one lifetime ago |
| OrderCache.CacheIsTransparent | common/sources/cache.go:126-142 | over an unchanging upstream every call in any history gets the upstream's answer to its own question, or its error |
| OrderCache.InterleavedHitIsRecent | common/sources/cache.go:126-142 | however the looks and stores of calls interleave, a call is answered with what the upstream told it or with a successful answer to the same question at most one lifetime old |
| OrderCache.InterleavedIsTransparent | common/sources/cache.go:126-142 | so over an unchanging upstream every call in every interleaving gets the upstream's answer to its own question, or its error |
| OrderCache.ColonNamesMix | common/sources/cache.go:144-146 | two sources, one named with a colon, for which one is answered with the other's listing |
| WitnessMerge.MergeTxWitnesses | common/sources/tx_finalize.go:48-142 | the merge with its errors in order, the panic on a null witness set and the null written for a list never begun included |
| WitnessMerge.MergesExactly | common/sources/tx_finalize.go:48-110 | when a merge goes through, in terms of what can be read of the two items |
| WitnessMerge.MergeFailsWith | common/sources/tx_finalize.go:48-110 | and which error it gives where it does not |
| WitnessMerge.ListsAre | common/sources/tx_finalize.go:84-95 | what can be read as a list: arrays of either form, through tags, and null as none |
| WitnessMerge.SlotsAre | common/sources/tx_finalize.go:66-77 | what can be read as slots: maps whose keys are all unsigned |
| WitnessMerge.SlotsHold | common/sources/tx_finalize.go:66-77 | a slot holds the last value under its key |
| WitnessMerge.ReadAs | common/sources/tx_finalize.go:57-60 | in which forms truth values, slot numbers, slots and lists are read, null and undefined included |
| WitnessMerge.TagsAreLookedThrough | common/sources/tx_finalize.go:57-95 | everything is read through tags |
| WitnessMerge.EmptySlot | common/sources/tx_finalize.go:97-110 | a vkey slot that ends up empty is null in bytes if there never was a list, and an empty array otherwise |
| WitnessMerge.EntriesRead | common/sources/tx_finalize.go:148-160 | a slot map that was written reads back as itself |
| WitnessMerge.KeysAscend | common/sources/tx_finalize.go:148-160 | its keys are written in ascending order |
| WitnessMerge.MergeKeeps | common/sources/tx_finalize.go:62-142 | a merge keeps body, validity flag, auxiliary data and every slot but the vkeys, and there appends the fresh witnesses to the old ones |
| WitnessMerge.MergesKeep | common/sources/tx_finalize.go:48-142 | so do any number of merges, in order |
| WitnessMerge.TwiceIsOnce | common/sources/tx_finalize.go:80-110 | merging two sets gives the very transaction that merging one set with the witnesses of both gives |
| WitnessMerge.MergedBytes | common/sources/tx_finalize.go:125-141 | the result is well formed, and its bytes are an array of four with the body's and the auxiliary data's own bytes |
| WitnessMerge.SignedIsSent | common/engine/tempwallet.go:113-166 | the signed transaction is the unsigned one with one witness more, after the old ones in slot 0: an array of two byte strings, the payment key and its signature of the hash of the very bytes of the body returned |
| WitnessMerge.WitnessesAre | common/engine/tempwallet.go:128-166 | a witness set has slot 0 only, with the payment key's pair of key and signature, and after it the stake key's if asked for |
| WithdrawShares.ComputePow10 | common/sources/surf/client.go:569-575 | the loop computes the power, 1 for a negative exponent |
| WithdrawShares.RoundIsNearest | common/sources/surf/client.go:931 | amounts are rounded to the nearest unit, halves away from zero |
| WithdrawShares.UnpricedPool | common/sources/surf/client.go:161-164 | a pool without shares has no rate, and its holdings are shown share for unit |
| WithdrawShares.BuildWithdraw | common/sources/surf/client.go:921-949 | units rounded, divided by the rate and floored, one less for a full withdrawal |
| WithdrawShares.ShownInUnits | common/sources/surf/client.go:157-162 | what a holding is shown as, in units, is the holding at the pool's rate |
| WithdrawShares.CutInUnits | web/index.html:1560-1568 | cutting to six decimals never adds and takes off less than a millionth |
| WithdrawShares.UnitsAsked | web/index.html:1560-1575 | the units a full withdrawal asks for exceed the holding's worth by at most a half, and by nothing from six decimals on |
| WithdrawShares.FullNeverOverburns | common/sources/surf/client.go:927-943 | built at a rate no lower than shown, or one for one where the pool could not be read, a full withdrawal burns at most the shares held, for every holding: from six decimals on, or above a quarter unit a share |
| WithdrawShares.AskedAtLeast | common/sources/surf/client.go:927-931 | a holding asks for so many units exactly when it is worth them, or half a unit less below six decimals |
| WithdrawShares.SafeWithinIssued | common/sources/surf/client.go:927-943 | at any rate and over any decimals: a full withdrawal is safe for every holding within the shares issued if and only if no number of units that can be asked for is worth two shares more than the least holding that asks for it |
| WithdrawShares.SmallFallIsSafe | common/sources/surf/client.go:927-943 | it is safe for every holding issued while the fall of the rate, over all the shares and with the rounding, stays under two shares' worth |
| WithdrawShares.FallenRateOverburns | common/sources/surf/client.go:927-943 | up to six decimals, once the fall is worth two shares, withdrawing all the shares issued burns more than that |
| WithdrawShares.SafeAtSixDecimals | common/sources/surf/client.go:927-943 | so with six decimals it is safe for every holding issued if and only if the fall of the rate over all the shares is worth less than two |
| WithdrawShares.UnreadPoolSafeExactly | common/sources/surf/client.go:935-938 | with a pool that could not be read, the exact condition for any decimals on units and shares; up to six decimals it is safe for every holding issued if and only if the units are at most one more than the shares |
| WithdrawShares.BurnedIsBounded | common/sources/surf/client.go:927-943 | however the rate moves, the shares burned and one more are worth at most the holding at the rate shown and half a unit |
| WithdrawShares.SomeHoldingOverburns | common/sources/surf/client.go:927-943 | at a quarter unit a share or less, over fewer than six decimals, a holding within the shares issued for which it burns more than is held |
| WithdrawShares.SafeExactly | common/sources/surf/client.go:927-943 | so at an unchanged rate it is safe for every holding issued if and only if the pool has six decimals or more or a rate above a quarter |
| WithdrawShares.FullLeavesTwo | common/sources/surf/client.go:939-943 | and at a unit a share or more, with up to six decimals, at most two shares are left |
| WithdrawShares.PartialIsCovered | common/sources/surf/client.go:932-938 | a partial withdrawal never redeems more than the rounded request, and one share more would |
| WithdrawShares.UnreadPoolOverburns | common/sources/surf/client.go:935-938 | a concrete full withdrawal that burns 299 of 100 shares when the pool could not be read |

## Left out

- HTTP, JSON, the chain queries, the Mongo and Redis stores, and the DEX and lending APIs: inputs of the model, as a success with a value or a failure.
- Cryptography and key storage: the hash and the signature are function parameters of `WitnessMerge.SignTx`; a signer that returns an error is not modelled.
- Floating-point rounding, infinities and NaN: amounts are exact reals, and an infinite health factor is `None`.
- Clocks: a deadline that passes is an answer of the step that looks at it; `OrderCache` takes the times of its reads and writes as given.
- LeveragePlan.NoLoopDoesBetter: states two bounds for the minimum-borrow case; the exact case distinction is `LeveragePlan.WhenAPlanFallsShort`.
- LiveLoop.TempWallet.OpenLeg: models the Surf path, in which collateral goes with the borrow; the two-transaction Liqwid path is not reachable through the market selection. Network and batcher fees are not charged to the balances, and an order submitted but not settled counts its collateral as gone.
- LiveLoop.TempWallet.TradeAll: a target that is itself ADA is not modelled, since a fee reserve would then be held back on both sides.
- LiveLoop.RunReproducesPlan: assumes that the free base balance is the capital, that prices do not move, and that swaps fill at the lender's price.
- QuoteHealth.MakeQuote: the choice of the borrow market and the wording of notes and errors are left out, and so is the rounding of the figures they print, but for the leverage that is advised; whether a note is given is kept.
- UnwindLoop.CloseOpenOrders: the switch that would defer repays is a constant that is on, so its branch is not modelled; the sale and the sweep after the closes are not modelled. A repay whose answer is lost is an unconfirmed close here, as a cancel without confirmation is.
- UnwindLoop.StaleIsRepaidIfReached: the first listing is taken to name each output once.
- JobHandoff.OneRecovery: one goroutine and one reversal, as the code gives no guarantee for overlapping reversals, for `Sweep` beside a loop, or for a retry racing a reversal. A status saved late by the goroutine over the reversal's is not modelled; nor is a key that fails to open during the recovery itself.
- BuildLoop.EveryHistory: a process that goes down between submitting a transaction and recording it is left out, as the code gives no guarantee there; so are transactions of an unwind, after which a job does not run on, and a start that read the job before another loop ended and goes on from stale steps.
- SingleFlight.EveryRun: a leader whose upstream call panics is left out; a source without a cache calls the upstream every time, which is not modelled.
- WitnessMerge.MergeTxWitnesses: works on items rather than on hexadecimal text; bignum keys and a null transaction are refused here, where the decoder would accept them.
- CborSkip.CborSkip: a read past the end gives no position here, where the page goes on with an undefined byte; lengths are exact beyond 2^53.
- CardanoTx.HexToBytes: a pair with one bad digit is refused here, where the page would take the digits before it or a zero byte.
- AddressCodec.ConvertBits: widths whose sum exceeds 32 bits are left out; the page uses 8 and 5.
- The in-memory job store, the balance-settling poll before a sweep, the market cache's own get and set, and the small parsers of units and listings: they would only add easy members.
- The HTTP handlers, configuration, and the page's rendering and wallet dialogs.
