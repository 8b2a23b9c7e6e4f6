# Astrea: verified models

Dafny models of four parts of the Astrea repository, each proved against what the part is for.

## QR symbols

`Bits`, `BitPoly`, `Gf256`, `ReedSolomon`, `Interleave`, `Zigzag`, `QrTables`, `FunctionPatterns`, `Capacity`,
`Penalty`, `QrSymbol`, `QrCode`, `Utf8`, `Segments` and `QrEncode` model the QR generator
(ISO/IEC 18004:2015). `QrCode` is a class that fills its `modules` and `isFunction` arrays in place;
the arithmetic, drawing, scanning, masking and scoring loops are proved against specifications on
sequences. `QrStandard` writes down apart from the generator what the standard's figures and tables say:
pictures of the fixed patterns, places of format and version information, mask conditions, scan order,
capacities, interleaving. `QrConformance` and `QrPictures` prove that the generator agrees with it, and
`QrReader` decodes by it and looks at nothing but the modules. The main result reads every generated
symbol back, from text to modules to text, and shows that its blocks are Reed-Solomon codewords over the
field of 0x11D. A byte is a bit string of length eight, most significant bit first.

## The shared escrow contract

`EscrowState` and `EscrowSteps` give the contract as a state and one step per entry point; a panic is a
step that changes nothing. A run is any sequence of calls by anyone with any signatures except the
contract's own, of token transfers between others or into the contract, and of clock steps.
`EventEscrow` is the contract as an object that updates storage in place, in the original's order, with
`Invoke` as the host that reverts a panic; each of its methods is proved to be its step. Amounts are 128-bit and
counts 32-bit, with the original's overflow panics. The state carries a history of what happened to the
money. `EscrowSolvency`, `EscrowHistory`, `EscrowConservation`, `EscrowIndex`, `EscrowLiveness`,
`EscrowSupply` and `EscrowIsolation` prove properties of every run. `EscrowEffects` says of every call
exactly when it succeeds and what it does to balances and fields, in its caller's terms, and
`EscrowTerms` what a creation binds along every later run.

Isolation is not unconditional: an organizer may deposit tokens won in another organizer's event, and
without that event the deposit has no funds. `IsolationNeedsFunding` is such a run, and `Isolation` says
that this is the only way it fails.

## Database and chain

`MirrorDb` gives every store transaction as one atomic guarded step, `Postgres` the store as an object
with loops, rollback and unique constraints. `Mirror` composes them with the contract: handlers read,
build, save, verify and submit in separate steps, any number of them may be in flight for an event, a
failure may be recorded at any time over any status, a confirmation may arrive late or never, and anybody
may call the contract directly. Host functions stand for their encodings, which are injective.
`MirrorRows` says of every transaction exactly when it commits and what each row holds afterwards;
`MirrorPayouts` what a completed event has been paid, in every interleaving.

## Prizes and money text

`Allocate`, `ReleaseAllocation`, `ReleaseHandler`, `AmountText` and `Trustline` use 64-bit arithmetic with
wrap-around, as Go does (`Int64`), and say exactly when it agrees with exact arithmetic. `ReleaseLines`
follows each member of each winning team to its row, `ReleasePaid` each row to the ledger,
`AmountMeaning` says which number a text denotes, and `WalletCheck` what the capacity check reports.
`AllocationLimits` holds inputs at which it does not:

- A member other than the one of lowest ordinal is paid the floor of its share iff prize times share
  fits in 64 bits (`ApportionedIff`; `OverflowMisallocates` is an accepted input that fails).
  A place is paid its prize exactly in any case.
- The list of an accepted release build passes the contract's checks for the sum of the prizes; the
  reward it is compared with is a wrapped sum, so it passes for that reward iff the sum fits
  (`WinnersPassContract`). Nineteen prizes of the most that the schema holds are an accepted build that
  the contract refuses (`WrappedRewardRefused`).
- The cap of 25 lines is checked on the members of the declared teams. It caps the lines when position
  places are distinct (`AllocationFew`), as they are in a release build, and not when a place is repeated
  (`RepeatedPlaceExceedsCap`).
- The capacity check is exact while the sum of payouts to each address fits (`RequireExact`); beyond that
  `OverflowAccepted` gives accounts for which it accepts too much, and `TwicePayoutWraps` such a list.
  A release build pays each address once, so there it is always exact (`CapacityExact`).
- The comment in amount.ts says that the browser's parser mirrors the server's. The server also accepts
  a leading plus sign and a trailing dot (`OnlyServerAccepts`), and nothing else in addition
  (`BrowserFollowsServerIff`).


## Model

| member | source | states |
|---|---|---|
| Gf256.ReedSolomonMultiply | apps/web/src/lib/qr.ts:668-679 | the shift-and-add loop returns the product modulo the polynomial 0x11D |
| Gf256.MulCommutative | apps/web/src/lib/qr.ts:668-679 | the product is commutative |
| Gf256.MulAssociative | apps/web/src/lib/qr.ts:668-679 | the product is associative |
| Gf256.MulAddRight | apps/web/src/lib/qr.ts:668-679 | the product distributes over addition |
| Gf256.MulTwo | apps/web/src/lib/qr.ts:668-679 | multiplying by 2 shifts, and adds 0x1D exactly when a bit falls out |
| Gf256.ProductModulo11D | apps/web/src/lib/qr.ts:668-679 | the carry-less product of two bytes is their field product plus a multiple of the polynomial 0x11D |
| Gf256.PowersOfTwo | apps/web/src/lib/qr.ts:640-645 | each root is the one before, shifted, with 0x1D added exactly when a bit falls out |
| ReedSolomon.MultiplyByRoot | apps/web/src/lib/qr.ts:632-645 | the inner loop multiplies the array in place by (x - root) |
| ReedSolomon.ReedSolomonComputeDivisor | apps/web/src/lib/qr.ts:625-647 | fails exactly outside degrees 1 to 255, and otherwise returns the product of the linear factors |
| ReedSolomon.DivisorIsGenerator | apps/web/src/lib/qr.ts:625-647 | as a polynomial, x^degree plus the divisor is (x - 2^0)...(x - 2^(degree-1)) at every point |
| ReedSolomon.ReedSolomonComputeRemainder | apps/web/src/lib/qr.ts:650-664 | the shift register computes the division remainder |
| ReedSolomon.DivisionIdentity | apps/web/src/lib/qr.ts:650-664 | data·x^n plus the remainder equals quotient times divisor at every point: the register is polynomial division |
| ReedSolomon.Codeword | apps/web/src/lib/qr.ts:397-408 | for every data and degree, data followed by its remainder vanishes at 2^0 ... 2^(degree-1) |
| Interleave.AddEccAndInterleave | apps/web/src/lib/qr.ts:380-421 | fails exactly on a wrong data length; otherwise the stream holds every codeword of every block at its place |
| Interleave.PositionInjective | apps/web/src/lib/qr.ts:410-420 | two table cells outside the gap never share a place in the stream |
| Interleave.PositionOnto | apps/web/src/lib/qr.ts:410-420 | every place of the stream is the place of a table cell |
| Interleave.BlocksAreCodewords | apps/web/src/lib/qr.ts:397-420 | each block read from the stream is a Reed-Solomon codeword |
| Interleave.DeinterleaveInterleave | apps/web/src/lib/qr.ts:380-421 | de-interleaving by short and long blocks returns exactly the data |
| Interleave.InterleavedUnique | apps/web/src/lib/qr.ts:410-420 | data determines the stream |
| Zigzag.ScanVisitsOnce | apps/web/src/lib/qr.ts:432-450 | for every odd size from 7 on, the scan visits each cell outside column 6 exactly once and no other |
| Zigzag.ReadDrawn | apps/web/src/lib/qr.ts:425-452 | reading along a path returns the bits that were drawn along it |
| Zigzag.DrawnKeepsFunctionModules | apps/web/src/lib/qr.ts:425-452 | drawing codewords leaves every function module alone |
| FunctionPatterns.AlignPositionsSpaced | apps/web/src/lib/qr.ts:581-597 | for every version alignment patterns are at least five modules apart and inside the symbol |
| FunctionPatterns.AlignmentUnique | apps/web/src/lib/qr.ts:272-287 | no module belongs to two alignment patterns |
| QrTables.TablesConsistent | apps/web/src/lib/qr.ts:615-621 | every version and level gives a possible block layout |
| QrTables.DataCodewordsFillBlocks | apps/web/src/lib/qr.ts:615-621 | the data capacity is exactly what the blocks take |
| Capacity.CoverLength | apps/web/src/lib/qr.ts:599-611 | the capacity formula is the number of scanned modules less the length of the list of function modules |
| Capacity.EveryVersionHasRoom | apps/web/src/lib/qr.ts:599-611 | for every version the scan has a free module for each codeword bit |
| Capacity.CoverDistinct | apps/web/src/lib/qr.ts:599-611 | the list names no module twice |
| Capacity.CoverIsFunction | apps/web/src/lib/qr.ts:599-611 | the list names only function modules of the scan |
| Capacity.FunctionModulesCovered | apps/web/src/lib/qr.ts:599-611 | the list names every function module of the scan |
| Capacity.FreeModules | apps/web/src/lib/qr.ts:599-611 | for every version exactly the promised number of modules is left for data |
| QrSymbol.MaskTwice | apps/web/src/lib/qr.ts:459-496 | masking is its own inverse |
| QrSymbol.FinishIgnoresFormat | apps/web/src/lib/qr.ts:228-240 | drawing format information for one mask leaves nothing behind for the next |
| QrSymbol.UnmaskFinished | apps/web/src/lib/qr.ts:224-241 | in a finished symbol every data module is the drawn bit, inverted exactly by its mask pattern |
| QrCode.QrCode.DrawFunctionPatterns | apps/web/src/lib/qr.ts:260-292 | in-place drawing yields the declared function modules and colors, cell by cell |
| QrCode.QrCode.DrawAlignmentPatterns | apps/web/src/lib/qr.ts:272-287 | exactly the modules of alignment patterns off the finder corners are drawn |
| QrCode.QrCode.DrawFormatBits | apps/web/src/lib/qr.ts:296-320 | both copies of the fifteen BCH-protected format bits, and nothing else, are drawn |
| QrCode.QrCode.DrawVersion | apps/web/src/lib/qr.ts:323-339 | both copies of the version bits, from version 7 on |
| QrCode.QrCode.DrawCodewords | apps/web/src/lib/qr.ts:425-452 | the in-place scan draws the k-th bit at the k-th free module of the zigzag and changes nothing else |
| QrCode.QrCode.ApplyMask | apps/web/src/lib/qr.ts:459-496 | exactly the data modules that meet the standard's condition for the mask are inverted |
| QrCode.QrCode.ChooseMask | apps/web/src/lib/qr.ts:224-241 | the chosen mask has the least penalty, and no earlier mask an equal one |
| QrCode.QrCode.Create | apps/web/src/lib/qr.ts:192-244 | fails exactly on a bad version, mask or data length; otherwise the grid is the finished symbol for the data |
| QrCode.QrCode.DrawFinderPattern | apps/web/src/lib/qr.ts:344-355 | the in-bounds part of a finder pattern with its separator, and nothing else, is drawn |
| QrConformance.MaskAgrees | apps/web/src/lib/qr.ts:463-489 | every mask inverts exactly where the standard's condition in row and column says |
| QrConformance.ScanAgrees | apps/web/src/lib/qr.ts:432-450 | the scan order is the standard's: two-module columns from the right, up and down in turn, without column 6 |
| QrConformance.TablesAgree | apps/web/src/lib/qr.ts:599-621 | for every version and level, total, data and block counts are those of the standard's table |
| QrConformance.CentersAgree | apps/web/src/lib/qr.ts:581-597 | for every version the computed alignment coordinates are those of the standard's table |
| QrConformance.ReservedAgrees | apps/web/src/lib/qr.ts:260-370 | for every version the modules closed to data are exactly those that the standard reserves |
| QrConformance.PositionAgrees | apps/web/src/lib/qr.ts:410-420 | every data and error correction codeword is where the standard's interleaving puts it |
| QrConformance.DataAgrees | apps/web/src/lib/qr.ts:380-421 | de-interleaving by the standard's places finds the generator's blocks |
| QrPictures.FrameShown | apps/web/src/lib/qr.ts:260-370 | finders, separators, alignment patterns, timing patterns and the dark module match the standard's figures, for every version |
| QrPictures.FormatShown | apps/web/src/lib/qr.ts:296-321 | both copies of the format information carry the format bits, at the standard's places |
| QrPictures.FormatWordValid | apps/web/src/lib/qr.ts:297-306 | level and mask followed by check bits that make a multiple of 0x537, under the mask 0x5412 |
| QrPictures.VersionShown | apps/web/src/lib/qr.ts:323-341 | from version 7 on both copies of the version information carry the version bits, at the standard's places |
| QrPictures.VersionWordValid | apps/web/src/lib/qr.ts:326-330 | the version followed by check bits that make a multiple of 0x1F25 |
| QrReader.SymbolReadsBack | apps/web/src/lib/qr.ts:192-244 | from the modules alone, by the standard's pictures, tables, masks and places, a reader recovers version, level, mask and exactly the data codewords |
| QrReader.SymbolBlocksAreCodewords | apps/web/src/lib/qr.ts:192-244 | every block read so from a finished symbol is a Reed-Solomon codeword |
| Penalty.RunsExpand | apps/web/src/lib/qr.ts:683-722 | the run lengths expand to the line |
| Penalty.PaddedExpands | apps/web/src/lib/qr.ts:683-722 | the padded run lengths are those of the line between light borders of its own length |
| Penalty.ScanLine | apps/web/src/lib/qr.ts:503-525 | the streaming scan with seven remembered runs equals the sum over the run-length encoding |
| Penalty.FinderPenaltyTerminateAndCount | apps/web/src/lib/qr.ts:699-712 | ending a line accounts for the last run and the border |
| Penalty.CountBlocks | apps/web/src/lib/qr.ts:550-561 | three points for every 2*2 square of one color |
| Penalty.GetPenaltyScore | apps/web/src/lib/qr.ts:500-574 | the in-place computation equals the declarative score and lies between 0 and 2568888 |
| Penalty.BalanceIsLeast | apps/web/src/lib/qr.ts:567-570 | the balance term is the least k with \|20·dark - 10·total\| <= (k+1)·total |
| Penalty.PatternsAre | apps/web/src/lib/qr.ts:683-695 | a light run scores for each side on which the seven runs up to it read n, n, 3n, n, n between light runs of four and one times n |
| Utf8.ToUtf8ByteArray | apps/web/src/lib/qr.ts:961-973 | reading the percent escapes of encodeURI back gives the UTF-8 bytes of the text |
| Utf8.Utf8ReadsBack | apps/web/src/lib/qr.ts:961-973 | the bytes of a text decode to the text |
| Utf8.EncodeUriIsEscape | apps/web/src/lib/qr.ts:962-962 | escaping by character is escaping by octet |
| Segments.AppendBits | apps/web/src/lib/qr.ts:789-798 | appends exactly the low-order bits, most significant first |
| Segments.MakeNumeric | apps/web/src/lib/qr.ts:836-847 | fails exactly on a non-digit; otherwise the bits of groups of three digits |
| Segments.MakeAlphanumeric | apps/web/src/lib/qr.ts:852-874 | fails exactly on a character outside the set; otherwise packs pairs |
| Segments.GetTotalBits | apps/web/src/lib/qr.ts:947-958 | the length of the bit stream, or nothing if a count does not fit its field |
| Segments.DigitsReadBack | apps/web/src/lib/qr.ts:836-847 | a parser recovers every digit string, leading zeros included |
| Segments.TextReadsBack | apps/web/src/lib/qr.ts:852-874 | a parser recovers every alphanumeric text |
| Segments.ParseReadsBack | apps/web/src/lib/qr.ts:132-147 | parsing mode, count and payload up to the terminator returns every segment, whatever padding follows |
| Segments.MakeBytes | apps/web/src/lib/qr.ts:829-833 | packs eight bits a byte |
| Segments.MakeEci | apps/web/src/lib/qr.ts:889-901 | fails exactly outside 0 to 999999; otherwise the prefix-coded designator |
| Segments.DesignatorReadsBack | apps/web/src/lib/qr.ts:889-901 | a parser recovers every designator |
| Segments.MakeSegments | apps/web/src/lib/qr.ts:878-885 | numeric if possible, else alphanumeric, else UTF-8 bytes |
| Segments.PayloadsSayText | apps/web/src/lib/qr.ts:878-885 | however a text is packed, its segments say the text |
| Segments.WidthsAgree | apps/web/src/lib/qr.ts:1046-1048 | the character count widths are the standard's for versions to 9, to 26 and to 40 |
| Segments.CharsetAgrees | apps/web/src/lib/qr.ts:984-985 | the alphanumeric character set is the standard's table of values |
| QrEncode.FindVersion | apps/web/src/lib/qr.ts:102-116 | the least version in range that holds the segments, or nothing exactly if none does |
| QrEncode.BoostLevel | apps/web/src/lib/qr.ts:118-130 | the highest level that still holds the data, never below the requested one |
| QrEncode.PadTo | apps/web/src/lib/qr.ts:141-155 | terminator, byte boundary and alternating pad bytes up to exactly the capacity |
| QrEncode.Pack | apps/web/src/lib/qr.ts:157-162 | packing into bytes keeps the bit string |
| QrEncode.EncodeSegments | apps/web/src/lib/qr.ts:83-166 | errors exactly on bad arguments or data that fits no version; otherwise a symbol for the segments at the least version and the right level |
| QrEncode.EncodedReadsBack | apps/web/src/lib/qr.ts:83-166 | from the modules alone every segment of the symbol is read back |
| QrEncode.EncodeText | apps/web/src/lib/qr.ts:55-58 | fails exactly if no version holds the text; otherwise the modules alone read back as that text |
| QrEncode.PaddingZeros | apps/web/src/lib/qr.ts:141-147 | zeros follow the data up to the first byte boundary that leaves room for a terminator |
| QrEncode.PaddingBytes | apps/web/src/lib/qr.ts:149-155 | after that boundary the k-th byte is EC for even k and 11 for odd k |
| EscrowSolvency.Solvency | smart-contracts/astrea/contracts/event-escrow/src/wallet.rs:11-68 | after any run the contract holds at least wallets plus live rewards of each token, and exactly that iff nothing was ever given to it |
| EscrowSolvency.NextBalanced | smart-contracts/astrea/contracts/event-escrow/src/rewards.rs:59-239 | every step of anybody keeps holding = debts + gifts, with each event in its organizer's wallet token |
| EscrowHistory.AfterMoves | smart-contracts/astrea/contracts/event-escrow/src/lifecycle.rs:25-501 | every step moves every event along its state machine, and what it records says which money moved |
| EscrowHistory.AfterRateBounded | smart-contracts/astrea/contracts/event-escrow/src/governance.rs:157-166 | the stored rate never exceeds 500 basis points |
| EscrowConservation.EventConservation | smart-contracts/astrea/contracts/event-escrow/src/lifecycle.rs:153-492 | after any run original reward = reserve + emergency withdrawals + refund + payout, with each flow possible only in the states that allow it |
| EscrowConservation.LiveLeavesByOnePayout | smart-contracts/astrea/contracts/event-escrow/src/rewards.rs:138-239 | an event in progress stays untouched until one payout of exactly its reward ends it for good |
| EscrowConservation.PayoutDelivers | smart-contracts/astrea/contracts/event-escrow/src/rewards.rs:47-57 | a payout delivers to every outsider exactly what the list names for it |
| EscrowConservation.WalletConservation | smart-contracts/astrea/contracts/event-escrow/src/wallet.rs:11-68 | after any run each wallet holds exactly what its history adds up to |
| EscrowConservation.TreasuryReceipts | smart-contracts/astrea/contracts/event-escrow/src/lifecycle.rs:282-338 | after any run and in every token, all fees together are at most 5% of the rewards of the events that went live |
| EscrowConservation.QuoteIsCharge | smart-contracts/astrea/contracts/event-escrow/src/lifecycle.rs:343-353 | at the quoted rate and reward, going live costs the wallet and gives the treasury exactly the quote and leaves the reward |
| EscrowIndex.IndexExact | smart-contracts/astrea/contracts/event-escrow/src/lifecycle.rs:99-107 | after any run each organizer's index lists exactly the organizer's events, once each, in creation order |
| EscrowIndex.PagesConcatenate | smart-contracts/astrea/contracts/event-escrow/src/lifecycle.rs:525-562 | consecutive pages of any size concatenate to the list |
| EscrowLiveness.WithdrawalSucceeds | smart-contracts/astrea/contracts/event-escrow/src/wallet.rs:42-68 | an organizer who is not paused can withdraw any part of the balance |
| EscrowLiveness.ReleaseSucceeds | smart-contracts/astrea/contracts/event-escrow/src/rewards.rs:138-172 | the judge of a live event can release to any valid list |
| EscrowLiveness.SettlementSucceeds | smart-contracts/astrea/contracts/event-escrow/src/rewards.rs:186-239 | a live event has a judging deadline, and once it passed the resolver can settle to any valid list |
| EscrowLiveness.ExpirySucceeds | smart-contracts/astrea/contracts/event-escrow/src/lifecycle.rs:153-205 | after its deadline an event that has not started can be expired, paused or not, exactly if the refund fits in 128 bits, as it does while the contract's balance does |
| EscrowLiveness.CancellationSucceeds | smart-contracts/astrea/contracts/event-escrow/src/lifecycle.rs:355-403 | before the start the organizer can cancel, exactly if the refund fits, and gets the whole reserve back |
| EscrowLiveness.RunSound | smart-contracts/astrea/contracts/event-escrow/src/lifecycle.rs:25-501 | the facts these exits rest on hold after any run |
| EscrowLiveness.InitialSound | smart-contracts/astrea/contracts/event-escrow/src/lifecycle.rs:25-501 | a contract just deployed satisfies those facts |
| EscrowSupply.RunKeepsSupply | smart-contracts/astrea/contracts/event-escrow/src/wallet.rs:11-68 | no run changes a token's supply |
| EscrowSupply.ExpiryOpen | smart-contracts/astrea/contracts/event-escrow/src/lifecycle.rs:153-205 | after any run an overdue event that has not started can be expired, paused or not, for tokens of 128-bit supply |
| EscrowSupply.CancellationOpen | smart-contracts/astrea/contracts/event-escrow/src/lifecycle.rs:355-403 | after any run the organizer can cancel before the start and gets the whole reserve back, for tokens of 128-bit supply |
| EscrowIsolation.Isolation | smart-contracts/astrea/contracts/event-escrow/src/lifecycle.rs:25-501 | keeping only one organizer's successful steps, governance, time and outside transfers, every kept step succeeds iff each kept deposit is funded, and then wallet, events and index end the same |
| EscrowIsolation.IsolationNeedsFunding | smart-contracts/astrea/contracts/event-escrow/src/rewards.rs:59-136 | a run whose kept deposit fails: it was funded by another organizer's compensation |
| EscrowEffects.DepositEffect | smart-contracts/astrea/contracts/event-escrow/src/wallet.rs:11-40 | exactly when a deposit succeeds; its amount moves from organizer to contract and into that wallet only |
| EscrowEffects.WithdrawEffect | smart-contracts/astrea/contracts/event-escrow/src/wallet.rs:42-68 | in every reachable state, exactly when a withdrawal succeeds; its amount moves from the contract to the organizer |
| EscrowEffects.CreateEffect | smart-contracts/astrea/contracts/event-escrow/src/lifecycle.rs:25-117 | exactly when a creation succeeds; the event has the call's organizer, judge, token, reward and deadline and the named resolver, else the governance default |
| EscrowEffects.WaitEffect | smart-contracts/astrea/contracts/event-escrow/src/lifecycle.rs:207-238 | exactly when it succeeds, and that only the state of this event changes |
| EscrowEffects.ExpireEffect | smart-contracts/astrea/contracts/event-escrow/src/lifecycle.rs:153-205 | exactly when anybody can expire an event; the whole reward is back in the organizer's wallet, no token moves |
| EscrowEffects.CancelEffect | smart-contracts/astrea/contracts/event-escrow/src/lifecycle.rs:355-403 | exactly when the organizer can cancel, and the same refund |
| EscrowEffects.EmergencyEffect | smart-contracts/astrea/contracts/event-escrow/src/lifecycle.rs:432-501 | exactly when organizer and resolver together can move part of the reserve back, and what changes |
| EscrowEffects.FeeIs | smart-contracts/astrea/contracts/event-escrow/src/lifecycle.rs:282-300 | the fee times 10000 is at most reward times rate, and one more would exceed it; it is refused exactly if the product overflows |
| EscrowEffects.StartEffect | smart-contracts/astrea/contracts/event-escrow/src/lifecycle.rs:240-338 | exactly when a start succeeds; the fee moves from the wallet to the treasury and nothing else moves |
| EscrowEffects.ReleaseEffect | smart-contracts/astrea/contracts/event-escrow/src/rewards.rs:138-172 | exactly when a release succeeds; everyone receives the sum of the lines that name them, the contract pays the reward, all other balances stay |
| EscrowEffects.SettlementEffect | smart-contracts/astrea/contracts/event-escrow/src/rewards.rs:186-239 | the same for a settlement by the resolver after the judging deadline |
| EscrowEffects.ReleaseDistributes | smart-contracts/astrea/contracts/event-escrow/src/rewards.rs:47-57 | from any state, a release or settlement that succeeds gives each address the sum of its own lines |
| EscrowEffects.CompensationEffect | smart-contracts/astrea/contracts/event-escrow/src/rewards.rs:59-136 | exactly when a compensation succeeds; every participant receives the sum of its own lines out of the organizer's wallet |
| EscrowEffects.CompensationDelivers | smart-contracts/astrea/contracts/event-escrow/src/rewards.rs:59-136 | from any state, a compensation that succeeds gives each address the sum of its own lines |
| EscrowTerms.CreationBinds | smart-contracts/astrea/contracts/event-escrow/src/lifecycle.rs:85-94 | along any run after a creation, each exit of the event succeeds only in the hands of the parties the call named: release by that judge, settlement by that resolver after the judging deadline, the others by that organizer |
| EscrowTerms.TermsStay | smart-contracts/astrea/contracts/event-escrow/src/lifecycle.rs:85-94 | no run changes parties, token or deadline of an event |
| EscrowTerms.OthersLeaveEvent | smart-contracts/astrea/contracts/event-escrow/src/lifecycle.rs:25-501 | a step that does not name an event leaves it as it is |
| EscrowTerms.GovernanceSigned | smart-contracts/astrea/contracts/event-escrow/src/access.rs:65-81 | governance changes only with the emergency admin's signature, or by the first one who claims that role |
| EscrowTerms.SetOnce | smart-contracts/astrea/contracts/event-escrow/src/governance.rs:27-148 | emergency admin, default resolver and treasury never change once set, along any run |
| EscrowTerms.GovernEffect | smart-contracts/astrea/contracts/event-escrow/src/governance.rs:27-166 | exactly when each governance call succeeds and which field it changes |
| EventEscrow.EventEscrow.DepositFunds | smart-contracts/astrea/contracts/event-escrow/src/wallet.rs:11-40 | in-place entry point refines its step, error cases included |
| EventEscrow.EventEscrow.WithdrawFunds | smart-contracts/astrea/contracts/event-escrow/src/wallet.rs:42-68 | refines its step |
| EventEscrow.EventEscrow.CreateEventInternal | smart-contracts/astrea/contracts/event-escrow/src/lifecycle.rs:25-117 | refines its step, with storage written before the last guards; the stored event has the terms of the call |
| EventEscrow.EventEscrow.ExpireEvent | smart-contracts/astrea/contracts/event-escrow/src/lifecycle.rs:153-205 | refines its step |
| EventEscrow.EventEscrow.SetEventInProgress | smart-contracts/astrea/contracts/event-escrow/src/lifecycle.rs:240-338 | refines its step, fee included |
| EventEscrow.EventEscrow.EmergencyWithdraw | smart-contracts/astrea/contracts/event-escrow/src/lifecycle.rs:432-501 | refines its step |
| EventEscrow.EventEscrow.ValidateAndSumWinners | smart-contracts/astrea/contracts/event-escrow/src/rewards.rs:26-44 | accepts exactly at most 25 positive amounts that sum to the reward, overflow included |
| EventEscrow.EventEscrow.TransferToPayees | smart-contracts/astrea/contracts/event-escrow/src/rewards.rs:47-57 | the transfer loop makes all transfers in order, or panics iff one of them fails |
| EventEscrow.EventEscrow.ReleaseReward | smart-contracts/astrea/contracts/event-escrow/src/rewards.rs:138-172 | refines its step; each address receives the sum of its own lines |
| EventEscrow.EventEscrow.ResolveDispute | smart-contracts/astrea/contracts/event-escrow/src/rewards.rs:186-239 | refines its step; each address receives the sum of its own lines |
| EventEscrow.EventEscrow.ReleaseCompensation | smart-contracts/astrea/contracts/event-escrow/src/rewards.rs:59-136 | refines its step |
| EventEscrow.EventEscrow.Govern | smart-contracts/astrea/contracts/event-escrow/src/governance.rs:27-166 | init-once singletons, pause switches, whitelist and the fee ceiling |
| EventEscrow.EventEscrow.Invoke | smart-contracts/astrea/contracts/event-escrow/src/access.rs:47-81 | a call is one step; a panic leaves every key as it was |
| EventEscrow.EventEscrow.GetEventsByAdmin | smart-contracts/astrea/contracts/event-escrow/src/lifecycle.rs:503-523 | the read loop never misses an entry and returns the creation list |
| EventEscrow.EventEscrow.GetEventsByAdminPage | smart-contracts/astrea/contracts/event-escrow/src/lifecycle.rs:525-562 | a page, with a saturating end, is the list sliced from offset to min(offset + limit, count) |
| EventEscrow.EventEscrow.SetEventWaitingForStart | smart-contracts/astrea/contracts/event-escrow/src/lifecycle.rs:207-238 | refines its step |
| EventEscrow.EventEscrow.SetEventCancelled | smart-contracts/astrea/contracts/event-escrow/src/lifecycle.rs:355-403 | refines its step |
| EventEscrow.EventEscrow.QuoteGoLiveFee | smart-contracts/astrea/contracts/event-escrow/src/lifecycle.rs:343-353 | the fee at the current rate, or a panic iff the product overflows or the event is missing |
| EventEscrow.EventEscrow.GetEventsByAdminCount | smart-contracts/astrea/contracts/event-escrow/src/lifecycle.rs:564-569 | the number of events the organizer created, while the index holds as it always does |
| EventEscrow.EventEscrow.GetBalance | smart-contracts/astrea/contracts/event-escrow/src/wallet.rs:70-76 | all that the history credited less all that it debited, while the books hold as they always do |
| Postgres.Postgres.SaveCreateBuild | services/core-go/internal/store/postgres_organizer.go:84-145 | refines the transaction, error cases included; an error changes nothing |
| Postgres.Postgres.MarkCreateSucceeded | services/core-go/internal/store/postgres_organizer.go:175-211 | matches the pending build's own id and a draft row, or rolls back |
| Postgres.Postgres.MarkCreateFailed | services/core-go/internal/store/postgres_organizer.go:215-238 | overwrites any status of an existing operation |
| Postgres.Postgres.SaveStartBuild | services/core-go/internal/store/postgres_organizer.go:350-412 | refines the transaction |
| Postgres.Postgres.MarkStartSucceeded | services/core-go/internal/store/postgres_organizer.go:446-481 | matches the pending build's own call and a created row, or rolls back |
| Postgres.Postgres.SaveReleaseBuild | services/core-go/internal/store/postgres_release.go:31-111 | assigns each named prize once, to its first winner's team, or rolls back at a foreign prize |
| Postgres.Postgres.MarkReleaseSucceeded | services/core-go/internal/store/postgres_release.go:140-193 | releases each named prize and inserts one payout per winner with its prize, member, stroops and hash, keyed on the pending status only |
| Postgres.Postgres.TransitionEvent | apps/web/src/lib/state-machines/apply.ts:12-27 | only an allowed transition from the expected status |
| Postgres.Postgres.MarkStartFailed | services/core-go/internal/store/postgres_organizer.go:485-508 | overwrites any status of an existing operation |
| Postgres.Postgres.MarkReleaseFailed | services/core-go/internal/store/postgres_release.go:198-221 | overwrites any status of an existing operation |
| Mirror.ActKeepsFaith | services/core-go/internal/api/submit.go:55-77 | whatever any handler, failure, timeout or chain call does, the database stays faithful to the chain and set ids are kept |
| Mirror.NeverAhead | services/core-go/internal/store/postgres_organizer.go:84-481 | faithfulness in every interleaving from an empty system |
| Mirror.RowClaims | services/core-go/internal/store/postgres_release.go:140-193 | a non-draft row names an event the contract holds; LIVE or JUDGING implies InProgress or Ended; COMPLETED implies Ended and a release that is not pending |
| Mirror.IdSetOnce | services/core-go/internal/store/postgres_organizer.go:175-211 | an escrowEventId that is set never changes |
| Mirror.LoadedTrue | services/core-go/internal/api/envelope.go:20-43 | what a verified submit carries is the saved build, for the event of its row, and its call is the signed one |
| Mirror.TransitionFollows | apps/web/src/app/[locale]/events/[id]/actions.ts:162-189 | the organizer's LIVE to JUDGING step keeps the database faithful |
| Mirror.ActPays | services/core-go/internal/store/postgres_release.go:140-221 | payouts of an event change at most from none to those of one confirmed transaction, all with its hash |
| Mirror.PayoutsWrittenOnce | services/core-go/internal/store/postgres_release.go:140-221 | once an event is completed its payouts never change, in any interleaving |
| MirrorRows.SaveCreateRows | services/core-go/internal/store/postgres_organizer.go:84-145 | exactly when the save commits, and the one row it writes |
| MirrorRows.ConfirmCreateRows | services/core-go/internal/store/postgres_organizer.go:175-211 | exactly when the confirmation commits, unique ids included, and the two rows it writes |
| MirrorRows.SaveStartRows | services/core-go/internal/store/postgres_organizer.go:350-412 | exactly when the save commits, and the one row it writes |
| MirrorRows.ConfirmStartRows | services/core-go/internal/store/postgres_organizer.go:446-481 | exactly when the confirmation commits, and the two rows it writes |
| MirrorRows.SaveReleaseRows | services/core-go/internal/store/postgres_release.go:31-111 | exactly when the save commits; each prize is assigned to the team of its first line, the others stay |
| MirrorRows.ReleaseCommits | services/core-go/internal/store/postgres_release.go:140-193 | a release commits exactly if it is pending, its prizes exist, its prize and member pairs are distinct and none was paid in this transaction |
| MirrorRows.NewReleaseCommits | services/core-go/internal/store/postgres_release.go:140-193 | a pending release with distinct pairs is always recorded under a new transaction |
| MirrorRows.ReleaseRows | services/core-go/internal/store/postgres_release.go:177-182 | the i-th row appended has prize, member and stroops of the i-th line and the transaction's hash; the prizes of the lines are released, the event is completed, all else stays |
| MirrorRows.FailureRows | services/core-go/internal/store/postgres_organizer.go:215-238 | a failure marks the operation of its own kind, over any status, keeps its build and changes nothing else |
| MirrorRows.SubmitLoads | services/core-go/internal/api/envelope.go:20-43 | a submit proceeds exactly with a pending build whose account and call a signed envelope carries, on a row in the right status |
| MirrorRows.BuildLaunches | services/core-go/internal/api/create.go:87-160 | a build asks the chain for the caller's own terms on the event that the row mirrors |
| MirrorRows.TransitionRows | apps/web/src/lib/state-machines/apply.ts:12-27 | the twelve allowed transitions, each only from the status the row is in |
| MirrorPayouts.CompletedIsPaid | services/core-go/internal/store/postgres_release.go:140-193 | in every interleaving, a completed event has one payout per line of its saved release, field by field, and their hash is that of a confirmed release of the event the row mirrors |
| Allocate.AllocateWinners | services/core-go/internal/escrow/allocate.go:95-211 | succeeds exactly on acceptable input, with the lines of all positions; every error names something that is wrong with the input; the final panic is unreachable |
| Allocate.FloorAndRemainder | services/core-go/internal/escrow/allocate.go:163-184 | the amounts array holds everyone's machine floor, plus what is left at the lowest ordinal |
| Allocate.ApportionedIff | services/core-go/internal/escrow/allocate.go:163-184 | everyone gets the floor of the share and the lowest ordinal the remainder, in [0, team size), iff no other member's product overflows |
| Allocate.LinesAddUp | services/core-go/internal/escrow/allocate.go:163-198 | the lines of an accepted place add up to its prize, whatever overflowed |
| Allocate.OrderIrrelevant | services/core-go/internal/escrow/allocate.go:172-184 | what a member gets does not depend on the order of the slice |
| Allocate.AllocationPaysReward | services/core-go/internal/escrow/allocate.go:200-210 | all lines sum to the position amounts, and to the reward iff those do not overflow |
| Allocate.AllocationFew | services/core-go/internal/escrow/allocate.go:85-87 | accepted input with distinct position places gives at most 25 lines |
| ReleaseAllocation.ValidateAssignments | services/core-go/internal/api/release.go:374-408 | accepts exactly the bijections from prize ranks to distinct teams of the event |
| ReleaseAllocation.BuildAllocationInput | services/core-go/internal/api/release.go:413-442 | positions, teams and wrapped reward in prize order; fails exactly on an unreadable amount |
| ReleaseAllocation.SumPrizes | services/core-go/internal/api/create.go:100-109 | the reward of a create build is the same wrapped sum as that of a release build |
| ReleaseAllocation.MapWinners | services/core-go/internal/api/release.go:448-484 | fails exactly if a line matches no member or no prize; otherwise joins each line to both |
| ReleaseAllocation.WinnersPassContract | smart-contracts/astrea/contracts/event-escrow/src/rewards.rs:26-44 | the list of an accepted build passes the contract's checks for the sum of the prizes, and for the computed reward iff that sum fits |
| ReleaseAllocation.WinnersMapBack | services/core-go/internal/api/release.go:448-484 | each line goes to a member of the team assigned to its prize, and maps back to that prize, team and member |
| ReleaseAllocation.NegativeRankUnmapped | services/core-go/internal/api/release.go:470-473 | a prize with a negative rank is never matched |
| ReleaseAllocation.BrowserTotalIsReward | apps/web/src/lib/escrow/amount.ts:20-27 | the browser's total of untrimmed amounts is the server's reward whenever it fits in 64 bits |
| ReleaseAllocation.WinnersDistinct | services/core-go/internal/api/release.go:413-442 | the list of a build pays every address at most once |
| AllocationLimits.OverflowMisallocates | services/core-go/internal/escrow/allocate.go:166-170 | input the allocator accepts, whose overflowed product pays a member a thirteenth of its half |
| AllocationLimits.RepeatedPlaceExceedsCap | services/core-go/internal/escrow/allocate.go:127-133 | accepted input with a repeated position place that gives 40 lines |
| AllocationLimits.WrappedRewardRefused | services/core-go/internal/escrow/allocate.go:200-206 | an accepted build of nineteen top prizes whose list fails the contract's check for the wrapped reward it was accepted for |
| AmountText.StroopsRoundTrip | services/core-go/internal/escrow/amount.go:31-90 | AmountToStroops(StroopsToAmount(s)) = s for every positive s |
| AmountText.SmallestUnitsRoundTrip | apps/web/src/lib/explorer.ts:39-48 | parseUsdcAmount(formatSmallestUnits(s)) = s for every positive s of any size |
| AmountText.ServerFollowsBrowser | apps/web/src/lib/escrow/amount.ts:11-18 | untrimmed text that the browser accepts has the same value on the server |
| AmountText.BrowserFollowsServerIff | services/core-go/internal/escrow/amount.go:31-64 | text the server accepts has the same value in the browser iff it has neither a leading plus sign nor a trailing dot |
| AmountText.IsDigits | services/core-go/internal/escrow/amount.go:83-90 | the loop accepts exactly digit strings |
| AmountText.OnlyServerAccepts | services/core-go/internal/escrow/amount.go:39-47 | +1 and 1. are one unit on the server and nothing in the browser |
| AmountMeaning.ServerReads | services/core-go/internal/escrow/amount.go:31-64 | every written amount is read as ten million times the decimal number it denotes, or refused for too many places, overflow or zero |
| AmountMeaning.ServerAccepts | services/core-go/internal/escrow/amount.go:31-64 | nothing else is accepted |
| AmountMeaning.BrowserReads | apps/web/src/lib/escrow/amount.ts:11-18 | the browser reads ten million times the decimal number, or nothing for zero |
| AmountMeaning.BrowserAccepts | apps/web/src/lib/escrow/amount.ts:11-18 | the browser accepts nothing but whole digits and up to seven places, up to white space around them |
| AmountMeaning.ServerPrints | services/core-go/internal/escrow/amount.go:69-81 | the server prints whole units without leading zeros, a dot and exactly seven places |
| AmountMeaning.BrowserPrints | apps/web/src/lib/explorer.ts:39-48 | the browser prints whole units and the places up to the last that is not zero; a debit has a minus sign |
| Trustline.Verify | services/core-go/internal/trustline/verify.go:142-169 | classification by the first line in the prize asset |
| Trustline.VerifyPayouts | services/core-go/internal/trustline/verify.go:192-210 | each address is checked once against its wrapped sum, in order of first appearance; the first error aborts |
| Trustline.ResultsInOrder | services/core-go/internal/trustline/verify.go:201-208 | results list the addresses in that order |
| Trustline.OrderDistinct | services/core-go/internal/trustline/verify.go:193-198 | no address is listed twice |
| Trustline.Require | services/core-go/internal/trustline/verify.go:235-250 | accepts iff all are fine, else names exactly the failing wallets |
| Trustline.RequireExact | services/core-go/internal/trustline/verify.go:235-250 | while the sums fit in 64 bits, acceptance is exactly that every address has room for all its payouts |
| Trustline.OverflowAccepted | services/core-go/internal/trustline/verify.go:195-200 | if a sum does not fit, there are accounts for which the check accepts what cannot be received |
| Trustline.AnyOrderFits | services/core-go/internal/trustline/verify.go:188-200 | an accepted list can be paid in any order without pushing a line past its limit |
| Trustline.CheckAddress | services/core-go/internal/trustline/verify.go:257-268 | accepts exactly G and 55 base-32 characters |
| Trustline.TwicePayoutWraps | services/core-go/internal/trustline/verify.go:195-200 | a concrete list and accounts for which the check accepts what cannot be received |
| Trustline.SingleNeeds | services/core-go/internal/trustline/verify.go:193-200 | with one payout per address no sum overflows |
| WalletCheck.WithoutLine | services/core-go/internal/trustline/verify.go:142-169 | exactly when an address is malformed, a lookup fails, an account is missing, or no line is in the prize asset |
| WalletCheck.WithLine | services/core-go/internal/trustline/verify.go:156-166 | the first line in the asset decides: not authorised, too little room, or fine |
| WalletCheck.OutcomeIs | services/core-go/internal/trustline/verify.go:192-250 | aborts exactly with the error of the first address that cannot be classified; otherwise names exactly the wallets that are not fine, with their status, in the order in which they are first paid |
| WalletCheck.NeedIsSum | services/core-go/internal/trustline/verify.go:193-200 | a need is the sum of the payouts to the address, each counted as one stroop at least |
| ReleaseHandler.BuildRelease | services/core-go/internal/api/release.go:88-138 | the stages composed: success is an accepted, mapped build every wallet can receive, and each error names the stage that refused; mapping never fails for an event its schema allows |
| ReleaseHandler.CapacityExact | services/core-go/internal/api/release.go:119-138 | on this path the capacity check is exact |
| ReleaseLines.AcceptsIff | services/core-go/internal/escrow/allocate.go:95-160 | accepted is exactly: complete teams of at most 25 members in all, shares of 10000 basis points, distinct ordinals and places, positive lines, and the wrapped sum |
| ReleaseLines.RowsAre | services/core-go/internal/api/release.go:448-484 | every member of the team assigned to a prize has one row, in order, with the ids, the wallet and that member's own share of that prize |
| ReleaseLines.PrizeAddsUp | services/core-go/internal/api/release.go:448-484 | the rows of each prize add up to it |
| ReleaseLines.RowsReceivable | services/core-go/internal/api/release.go:119-138 | the capacity check passes exactly if the wallet of every row can receive what the row says |
| ReleasePaid.RowsArePaid | smart-contracts/astrea/contracts/event-escrow/src/rewards.rs:138-172 | from service to ledger: the judge's release of an accepted build succeeds and pays to the wallet of every row exactly what the row says |
| ReleasePaid.BuiltPayable | smart-contracts/astrea/contracts/event-escrow/src/rewards.rs:26-44 | the contract accepts the list of an accepted build for the sum of the prizes |

## Left out

- Kanji segments, which the generator declares but has no factory for; the SVG path.
- Texts are sequences of Unicode scalar values; strings with unpaired surrogates, for which encodeURI throws, are not modelled.
- Range errors of the QR generator's private helpers that no public call can reach.
- That the BCH and Reed-Solomon codes correct errors; format and version words are shown to be code words, blocks to vanish at the roots.
- Storage lifetimes, event publication, transaction encoding, signatures beyond a set of signers, fees of the network.
- Token contracts beyond "a transfer succeeds iff the payer has the balance"; what tokens do on their own appears as outside transfers.
- ExpiryOpen: assumes that each token's supply is a 128-bit amount at the start; the ledger model keeps supplies and does not bound them.
- CancellationOpen: assumes the same.
- Isolation: keeps outside transfers as attempts; one whose payer got the tokens from a dropped step may fail there.
- Isolation: keeps only steps that succeeded in the full run; a creation that failed because another organizer had taken the id is not kept.
- Wallet deposits made through the service, earnings, cards, pages and the other state machines.
- HTTP handlers as programs: their reads, checks and writes are the actions of `Mirror`, their messages are not modelled.
- MarkReleaseSucceeded: does not claim that recorded payouts are the winners of the submitted build when a rebuild came in between; the original keys on the pending status only.
- Payout rows hold stroops; printing them as decimal text is `AmountText.StroopsRoundTrip`.
- WinnersMapBack: assumes wallet addresses unique in an event and ranks that are not negative, as the schema and the organizer's form give; `NegativeRankUnmapped` shows what a negative rank does.
- RowsAre: assumes the same.
- Allocate: shares and ordinals are 32-bit, as in the schema; wider Go integers are not modelled.
