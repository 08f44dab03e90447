# Exchange core

A model of the single-node exchange core, and proofs about it. The order book is modelled twice, as the
optimised matcher (slab, intrusive queues, bitmap ladder, open-addressed index) and as the flat reference
book, and both are classes proved against one specification on values (`Matching`). On top of it stand
the engine as a state machine with its write-ahead journal, the binary codecs and recovery, the risk
ledger and the fixed-width risk checks, the wire protocol and the histogram.

How the files go together:

- `Types`, `Matching`: instruments, orders, and matching as a run of steps over two sorted sides.
- `BookInvariant`, `BookSteps`, `Conservation`, `FillPrediction`, `Priority`, `Ledger`, `BookRuns`, `Amendments`,
  `SelfTrade`, `Verdicts`, `DepthView`: the laws of that specification, step by step and over whole streams.
- `Bits`, `Bitmap`, `PriceLadder`, `FlatHashMap`, `Slab`, `Flatten`, `BookStructure`, `OrderBook`: the optimised
  book, each structure against the simple thing it stands for.
- `ReferenceBook`, `Differential`: the flat book, and both books driven by one stream.
- `ByteBits`, `Crc32c`, `ByteCodec`, `Commands`, `JournalRecord`, `JournalReader`, `Layouts`: bytes, checksum,
  records, recovery, and every record and frame spelled out.
- `Venue`, `Conduct`, `Crash`, `MatchingEngine`, `Replayer`, `Restart`, `Trading`: runs of the venue, who may do what and
  how it is answered, the engine class, replay, and crash and restart.
- `RiskEngine`, `RiskChecks`, `RiskSettle`, `RiskLedger`, `RiskPositions`, `RiskRuns`, `RiskConduct`: risk.
- `WireMessages`, `Gateway`, `Histogram`, `Arithmetic`: wire frames, the connection, the histogram, shared arithmetic.

The book invariant (`BookOk`) and the structural invariant (`OrderBook.Valid`) are kept by every operation.
The clock, the kill switch's verdict, whether the disk takes a record, and the bytes a socket returns are
parameters.

## Findings

Places where the program does not do what its comments say, or what one would claim of it at first sight. Each
has a concrete input or family of inputs and, where it limits a claim, the exact condition, proved both ways.

- A replace that is refused because its new terms would cross a post-only order has already taken the
  order off the book (`src/core/order_book.cpp:470-484`); the engine treats it as untouched
  (`src/core/matching_engine.cpp:326-333`). `RefusedReplace`, `RefusedButGone`, `ReplaceCountsExactly`,
  `ReplaceCoversExactly`.
- A fill reduces the aggressor's working quantity although it was never recorded as working
  (`src/risk/risk_engine.cpp:224-227`), so an account that takes on a side where it rests is understated.
  `TakerExactly`, `TakerUnderstated`.
- A depth snapshot of more than 409 levels in all is sent in a frame the decoder refuses
  (`src/protocol/messages.cpp:200-203`, `include/xc/protocol/messages.hpp:60`). `DepthReceivedExactly`.
- The collar refuses every price further than (2^64-1)/10000 from its reference, inside its band or not
  (`src/risk/risk_engine.cpp:69-113`). `CollarExact`, `CollarTooStrict`.
- The position test reads sums and caps of 2^63 and more as negative (`src/risk/risk_engine.cpp:161-178`,
  `include/xc/risk/exposure.hpp:23-30`): it admits an order of 2^63 under a cap of 10, refuses a flat account every order
  under a cap of 2^63, and admits a buy of 2^62 under a cap of 2^62 on an account already 2^62 long. `PositionExact`,
  `PositionMisread`, `CapMisread`, `ProjectionMisread`, `AcceptedExactly`.
- Net positions are signed words (`src/risk/risk_engine.cpp:221-229`): after 2^63 has been bought, buyer and seller are
  both recorded short. `PositionsKept`, `LedgerSumsToZero`, `BothShort`.
- An instrument with a symbol of 65536 bytes or more is accepted and recorded (`src/core/matching_engine.cpp:47-83`),
  and its record cannot be read back, nor anything after it (`include/xc/util/byte_codec.hpp:35-38`). `ListedExactly`.
- An append that fails at the sync or at the next segment (`src/journal/writer.cpp:194-215`) may leave its record on
  disk: the command is refused, and performed by the next replay. `RefusedButRecorded`.

The overflow of a signed sum is undefined in C++; it is read as two's complement here.

Smaller ones: a rate above 10^9 a second limits nothing (`FasterIsUnlimited`); and when records are missing from the end
of a segment that is not the last, the report is a sequence gap or a torn tail depending on where the cuts fall, but
never clean while a later segment has bytes in it (`CutJournal`, `Aftermath`).

## Model

| member | source | states |
|---|---|---|
| Differential.Compare | tests/test_differential.cpp:43-108 | For every numbered command stream whose books stay within the range of a handle, every policy, hash function and starting capacity, the optimised book and the flat reference book show after each command the same answer, the same fills and the same orders resting in the same matching order, namely those of the specification (`Transcript`). |
| Differential.Drive | src/core/order_book.cpp:283-491 | One submit, cancel or replace given to both books leaves both at the specified next book and both answers, fills and resting lists equal to the specified ones. |
| Differential.ShortStreamFits | src/core/order_pool.cpp:22-29 | Every stream of at most 2^32-1 commands stays within that range. |
| OrderBooks.OrderBook.Submit | src/core/order_book.cpp:283-288 | The book after a submission, its result, fills and withdrawals are those of the specification, and every structure underneath is still in order. |
| OrderBooks.OrderBook.Insert | src/core/order_book.cpp:290-374 | The same for an order that already has fills behind it: checks, matching and resting in place refine the one-step specification. |
| OrderBooks.OrderBook.Cancel | src/core/order_book.cpp:376-409 | A known identifier is taken off its queue, level, index and slab and returned as it last rested; an unknown one changes nothing. |
| OrderBooks.OrderBook.Replace | src/core/order_book.cpp:411-491 | Invalid terms, reduction below what has traded, reduction in place and cancel-and-reinsert each yield exactly the specified book, result and fills. |
| OrderBooks.OrderBook.Match | src/core/order_book.cpp:142-256 | The two nested loops over levels and queues perform exactly the run of matching steps: same incoming remainder, fills, withdrawals and self-trade cancellations, same book. |
| OrderBooks.OrderBook.MatchLevel | src/core/order_book.cpp:160-250 | Working through one price level is a stretch of that run: it ends at the same place, strictly nearer, with nothing lost. |
| OrderBooks.OrderBook.Rest | src/core/order_book.cpp:273-281 | The order gets a slab node, an index entry and the last seat of the queue at its price, and the side it spells is the old one with the order placed behind its price. |
| OrderBooks.OrderBook.DropResting | src/core/order_book.cpp:133-140 | Unlinking the k-th order of a level, erasing its index entry and freeing its node removes exactly that order from the side and leaves every structure in order. |
| OrderBooks.OrderBook.Fillable | src/core/order_book.cpp:49-131 | The quantity predicted before anything moves, capped by the request, equals the total the match then fills, under every self-trade policy. |
| OrderBooks.OrderBook.WouldCross | src/core/order_book.cpp:258-271 | True exactly when the order would trade on arrival. |
| OrderBooks.OrderBook.Admit | src/core/order_book.cpp:290-361 | The checks made before anything changes give the specified verdict, fill-or-kill by prediction included. |
| OrderBooks.OrderBook.RestingOrders | include/xc/core/order_book.hpp:173-184 | Walking the ladders and queues lists every resting order once, in matching order, bids first. |
| OrderBooks.OrderBook.Depth | src/core/order_book.cpp:509-530 | The levels read off the ladder are the first ones of the side added up by price. |
| DepthView.AggregateFaithful | src/core/order_book.cpp:509-530 | Prices come best first, each once and none missing; each entry is the size and number of the orders at its price; the grand totals agree with the side. |
| OrderBooks.OrderBook.Find | src/core/order_book.cpp:555-558 | Looking an identifier up gives the order as it rests, or nothing exactly when it does not rest. |
| OrderBooks.OrderBook.constructor | src/core/order_book.cpp:16-28 | A new book is empty, with all structures in order. |
| ReferenceModel.ReferenceBook.Submit | tests/model/reference_book.cpp:132-188 | The flat list refines the same specification of a submission. |
| ReferenceModel.ReferenceBook.Match | tests/model/reference_book.cpp:56-123 | Scanning for the best counterparty again and again performs the same run of matching steps. |
| ReferenceModel.ReferenceBook.BestCounterparty | tests/model/reference_book.cpp:21-54 | The scan returns the order no other precedes in price and then sequence, if it can be reached, and nothing otherwise. |
| ReferenceModel.ReferenceBook.Cancel | tests/model/reference_book.cpp:190-200 | Cancel on the flat list refines the specification. |
| ReferenceModel.ReferenceBook.Replace | tests/model/reference_book.cpp:202-252 | Replace on the flat list refines the specification. |
| ReferenceModel.ReferenceBook.Admit | tests/model/reference_book.cpp:132-170 | The flat book's checks, fill-or-kill tried out on a copy, give the verdict the optimised book predicts. |
| ReferenceModel.ReferenceBook.RestingOrders | tests/model/reference_book.cpp:254-270 | Sorting the flat list by price and sequence gives both sides in matching order. |
| OrderBooks.OrderBook.IndexIsExact | src/core/order_book.cpp:133-140 | In every valid book index entries and live slab nodes are in one-to-one correspondence through the identifiers. |
| OrderBooks.OrderBook.QueuedExactlyOnce | src/core/order_book.cpp:273-281 | In every valid book each live order stands in the queue of its side and price, at one place, and in no other queue. |
| OrderBooks.OrderBook.LevelIsExact | src/core/price_level.cpp:7-52 | In every valid book a ladder bit is set exactly where something is queued, queue members are live and properly linked, and a level's total and count are the sum and length of its queue. |
| OrderBooks.OrderBook.NeverTooLarge | src/core/order_pool.cpp:22-29 | A valid book never holds more orders than its slab has handles, so a replace always finds room again. |
| Slab.OrderPool.Acquire | src/core/order_pool.cpp:12-43 | A handle that was not live becomes live with the order and no links; every other node and live handle stays as it was. |
| Slab.OrderPool.Release | src/core/order_pool.cpp:45-56 | Exactly that handle stops being live; free list and live handles still partition the slab. |
| Slab.PushBack | src/core/price_level.cpp:7-21 | The level's links, total and count become those of its queue with the handle at the end, and no node off the queue is touched. |
| Slab.Unlink | src/core/price_level.cpp:23-47 | The level's links, total and count become those of its queue without the k-th handle, wherever in the queue it stood. |
| Ladder.PriceLadder.Open | include/xc/core/price_ladder.hpp:139-147 | Marking a price adds its tick, and only it, to the occupied set and keeps all three bitmaps in step. |
| Ladder.PriceLadder.Erase | include/xc/core/price_ladder.hpp:165-174 | Erasing removes the tick, and only it, and clears summary bits only when the word below has emptied. |
| Ladder.PriceLadder.SetTick | include/xc/core/price_ladder.hpp:224-228 | Setting three bits adds exactly one member and keeps every summary bit equal to whether its word is non-zero. |
| Ladder.PriceLadder.ClearTick | include/xc/core/price_ladder.hpp:233-245 | Clearing with the two conditional returns removes exactly one member and keeps the same summary invariant. |
| Ladder.PriceLadder.BestOccupied | include/xc/core/price_ladder.hpp:260-278 | The result is the maximum of the occupied ticks on the bid side and the minimum on the ask side, for any band width, or none exactly when nothing is occupied. |
| Ladder.PriceLadder.NextOccupied | include/xc/core/price_ladder.hpp:286-329 | The result is the immediate neighbour of a tick in traversal order, or none exactly when there is no later one. |
| Ladder.PriceLadder.Walk | include/xc/core/price_ladder.hpp:130-133 | Iteration visits every occupied tick exactly once, in traversal order. |
| Ladder.PriceLadder.IndexOf | include/xc/core/price_ladder.hpp:208-218 | A price maps to the one tick that stands for it, or to none when it is off the grid or out of the band. |
| Ladder.PriceLadder.Test | include/xc/core/price_ladder.hpp:220-222 | The mask test says whether the tick is occupied. |
| Bitmap.WithKeepsSummary | include/xc/core/price_ladder.hpp:224-228 | Setting a bit and its summary bit keeps the summary exact. |
| Bitmap.WithoutKeepsSummary | include/xc/core/price_ladder.hpp:233-245 | Clearing a bit keeps the summary exact if the summary bit is cleared just when the word has become zero. |
| Bits.AboveMask | include/xc/core/price_ladder.hpp:194-196 | The mask for bits above a position has exactly those bits set, at position 63 too. |
| Bits.BelowMask | include/xc/core/price_ladder.hpp:198-200 | The mask for bits below a position has exactly those bits set, at position 0 too. |
| HashMap.FlatHashMap.Find | include/xc/util/flat_hash_map.hpp:39-47 | A key is found exactly when it is in the abstract map, with its value. |
| HashMap.FlatHashMap.Insert | include/xc/util/flat_hash_map.hpp:52-86 | A new key is added with its value, a present one is left alone, and the load of entries and tombstones stays within seven tenths of the capacity. |
| HashMap.FlatHashMap.Erase | include/xc/util/flat_hash_map.hpp:88-99 | The abstract map loses exactly that key; the tombstone keeps every other key reachable. |
| HashMap.FlatHashMap.Grow | include/xc/util/flat_hash_map.hpp:167-189 | Rehashing keeps the abstract map and a capacity that is a power of two, leaves room for the next entry, and its re-inserts never grow again. |
| HashMap.FlatHashMap.Locate | include/xc/util/flat_hash_map.hpp:144-155 | The probe ends, at the key's own slot if it is present and at an empty slot otherwise. |
| FillPrediction.PredictExact | src/core/order_book.cpp:49-131 | For every book, policy, account, limit and size the run of the match fills exactly what the prediction says. |
| FillPrediction.FillOrKillIsAllOrNothing | src/core/order_book.cpp:337-361 | An accepted fill-or-kill fills completely with nothing cancelled by self-trade prevention; a refused one leaves the book identical. |
| FillPrediction.KilledExactly | src/core/order_book.cpp:337-361 | A fill-or-kill is refused for size exactly when the prediction falls short of the request. |
| SelfTrade.RunByPolicy | src/core/order_book.cpp:142-256 | Over a whole match, policy by policy, against an account's own orders: allow lets them trade; cancel-incoming withdraws nothing and stops the aggressor; cancel-resting takes nothing from the aggressor and empties each order withdrawn; cancel-both withdraws one order and stops the aggressor; decrement-both takes the same total from both. Withdrawals are the aggressor's own orders and say so; trades are numbered on, carry the aggressor's time, and under every policy but allow have two parties. |
| SelfTrade.InsertByPolicy | src/core/order_book.cpp:142-256 | The same of an insert: its withdrawals, fills, trade numbers, self-trade cancellations and whether it rests, for each policy. |
| SelfTrade.OwnQueueKept | src/core/order_book.cpp:172-180 | Under cancel-incoming every resting order of the aggressor's account is still there, as it was. |
| Verdicts.AnsweredExactly | src/core/order_book.cpp:290-361 | Every order is answered by the first reason that applies, each stated in prices, lots and resting orders; a refusal leaves the book as it was. |
| Verdicts.RestsAsSent | src/core/order_book.cpp:298-374 | After acceptance the order is found exactly if something is left of a day or good-till-cancelled limit order, with all fields as sent and what is left; immediate-or-cancel, fill-or-kill and market orders never rest. |
| Verdicts.LeftoverFindsNothing | src/core/order_book.cpp:142-256 | If something is left, no resting order is left that it reaches. |
| Verdicts.PostOnlyRestsWhole | src/core/order_book.cpp:305-312 | An accepted post-only order trades nothing and withdraws nothing. |
| Verdicts.CancelledExactly | src/core/order_book.cpp:376-409 | A cancel answers with the order as it rested, or unknown; afterwards it is not found and every other order is found as before. |
| Verdicts.ReplacedExactly | src/core/order_book.cpp:411-491 | The answer to a replace by price, size, what is filled and what the new price reaches; priority is kept exactly for a smaller size at the same price above what has traded; otherwise the order is found again with its new terms, number and time and the size that is left. |
| Verdicts.GridAndLotsKept | include/xc/core/instrument.hpp:65-86 | Over every stream every resting price is a tick in the band, and every resting quantity and every traded quantity is a whole number of lots. |
| BookRuns.RunKeepsBook | src/core/order_book.cpp:283-491 | From an empty book every numbered stream keeps the whole book invariant. |
| BookRuns.NeverCrossed | tests/test_invariants.cpp:147-159 | After every numbered stream no bid reaches any ask, and both sides are strictly ordered by price and then sequence. |
| Priority.FillsFromTheFront | src/core/order_book.cpp:160-250 | The fills of an insert meet distinct resting orders in queue order, each at the resting price and within the aggressor's limit, and every order ahead of one that was filled is gone afterwards. |
| Priority.StaysAhead | src/core/order_book.cpp:439-465 | Over any stream, of two orders that have not been re-queued the one ahead stays ahead. |
| Priority.ReductionKeepsPlace | src/core/order_book.cpp:446-465 | A reduction at the same price changes the sizes of one order where it stands and nothing else in the book. |
| Conservation.RunConserves | src/core/order_book.cpp:142-256 | Over a whole match what the aggressor asked for and what the resting side held are accounted for by fills, withdrawals and remainders, under every policy. |
| Ledger.InsertConserves | src/core/order_book.cpp:298-374 | Requested equals fills plus self-trade cancellations plus leftover; the opposite side's total falls by fills plus withdrawals; the own side grows by what rests, and it rests exactly if something is left of a limit order that may rest. |
| Ledger.RestingLedger | tests/test_invariants.cpp:147-159 | Over every stream each resting order's quantity less its remaining equals the fills that name it since it was submitted, through replaces and decrement-both. |
| BookInvariant.RunResidue | src/core/order_book.cpp:142-256 | The matching loop ends, and leaves a suffix of the resting side of which only the first order may have shrunk. |
| BookSteps.InsertKeepsBook | src/core/order_book.cpp:290-374 | Every insert keeps sides sorted, identifiers unique, orders valid and the book uncrossed; a refused one changes nothing. |
| BookSteps.ReplaceKeepsBook | src/core/order_book.cpp:411-491 | So does every replace. |
| Amendments.RefusedReplace | src/core/order_book.cpp:470-484 | A refused replace leaves the book as it was exactly unless it is a post-only re-queue whose new terms cross; that order is gone. |
| Amendments.RefusedButGone | src/core/order_book.cpp:470-484 | Such an order, on a book of two. |
| Crc32c.MakeTable | src/util/crc32c.cpp:12-22 | Every table entry is its index divided eight times by the Castagnoli polynomial (section 12.1 of RFC 3720). |
| Crc32c.Checksum | src/util/crc32c.cpp:28-34 | The table-driven loop computes the bit-at-a-time division of the whole input, for any seed. |
| Crc32c.CheckValue | tests/test_journal_record.cpp:38-41 | The checksum of the digits 1 to 9 is 0xE3069283. |
| Crc32c.CheckBytes | src/journal/record.cpp:150-168 | That checksum as a record header stores it, lowest byte first. |
| Crc32c.DivideByBijective | src/util/crc32c.cpp:28-34 | Any number of register updates is a bijection. |
| Crc32c.BurstDetected | src/util/crc32c.cpp:28-34 | Any change confined to four bytes in a row changes the checksum. |
| Crc32c.CrcContinues | src/util/crc32c.cpp:28-34 | A checksum computed in pieces, each seeded with the last, is the checksum of the whole. |
| ByteCodec.ReadBackExact | include/xc/util/byte_codec.hpp:68-149 | A run of reads succeeds with given fields exactly when the bytes begin with those fields as written, and consumes exactly those bytes. |
| ByteCodec.ByteWriter.Put | include/xc/util/byte_codec.hpp:44-48 | Writing a number appends its bytes, lowest first. |
| ByteCodec.ByteWriter.PutText | include/xc/util/byte_codec.hpp:35-38 | A string is written as its length cut to sixteen bits and all its bytes. |
| ByteCodec.ByteReader.Take | include/xc/util/byte_codec.hpp:139-149 | A read returns the number at the cursor and advances, or fails for good and returns zero. |
| ByteCodec.ByteReader.Enumeration | include/xc/util/byte_codec.hpp:110-117 | A byte above the highest value fails the reader; what is returned is always in range. |
| ByteCodec.ByteReader.TakeText | include/xc/util/byte_codec.hpp:94-102 | A string is read whole or the reader fails for good. |
| JournalRecord.EncodeInto | src/journal/record.cpp:140-168 | Appending the header, the payload and the two back-patches yields the encoding of the record and leaves what was there before. |
| JournalRecord.DecodeFrom | src/journal/record.cpp:170-223 | The checks and reads give exactly the specified verdict on any bytes. |
| JournalRecord.DecodeExact | src/journal/record.cpp:140-223 | Bytes decode to a record exactly when they begin with that record's encoding, and consume just that. |
| JournalRecord.DecodePayloadExact | src/journal/record.cpp:11-125 | A payload decodes exactly when it is the whole payload of a record of that type. |
| JournalRecord.PrefixIncomplete | src/journal/record.cpp:170-185 | Every proper prefix of an encoded record is incomplete, never corrupt. |
| JournalRecord.DecodeStable | src/journal/record.cpp:170-223 | No verdict but incomplete changes when bytes are appended. |
| JournalRecord.DamageDetected | src/journal/record.cpp:163-206 | Changing up to four bytes in a row from offset 8 on makes the record corrupt or unreadable, never a record and never merely incomplete. |
| JournalRecord.HeaderFirst | src/journal/record.cpp:170-196 | Version, type, reserved bytes and length decide before the checksum: a bad header is unreadable, and a good one incomplete exactly when bytes are missing. |
| Layouts.NewOrderRecord | src/journal/record.cpp:11-168 | The bytes of a new order's record, one by one, header and checksum included. |
| Layouts.CancelRecord | src/journal/record.cpp:11-168 | The bytes of a cancel's record. |
| Layouts.ReplaceRecord | src/journal/record.cpp:11-168 | The bytes of a replace's record. |
| Layouts.InstrumentRecord | src/journal/record.cpp:11-168 | The bytes of a listing's record, symbol with its length and price band included. |
| JournalRecord.ListedExactly | include/xc/util/byte_codec.hpp:35-38 | A listing is read back exactly if its symbol is shorter than 65536 bytes; the bytes written for a longer one are unreadable, whatever follows. |
| JournalReader.Read | src/journal/reader.cpp:47-124 | Over any segments: the records, outcome and byte count specified; and the journal cut at the reported segment and offset reads clean with the same records. |
| JournalReader.ReadOn | src/journal/reader.cpp:74-120 | The record loop over one segment refines the recursive reading of it. |
| JournalReader.ReadSegmentSound | src/journal/reader.cpp:74-120 | Any bytes at all deliver consecutive numbers from the expected first; the good prefix is exactly the encoding of what was delivered and reads clean again. |
| JournalReader.CutSegment | src/journal/reader.cpp:74-120 | Any cut of a well-formed segment delivers exactly the records wholly inside it, clean at a boundary and torn otherwise. |
| JournalReader.ReadThrough | src/journal/reader.cpp:66-123 | Whole segments are read through and the numbering goes on into the one after them. |
| JournalReader.CutJournal | src/journal/reader.cpp:66-123 | With every segment of a journal cut anywhere, exactly the segments before the first cut and the records of that one wholly inside it are delivered; the reading is torn inside a record, and at a boundary ends as the next segment with bytes in it makes it: torn, or a sequence gap, or clean if there is none. |
| JournalReader.DamageStops | src/journal/reader.cpp:74-120 | If a record is changed in up to four bytes in a row from offset 8 on, whatever follows it, the reading is damaged and delivers exactly the records before it. |
| JournalReader.GoesOn | include/xc/journal/reader.hpp:94-102 | Once a damaged journal has been truncated to what could be read, segments numbered on from there are all read after it; as long as it has not been, none of them is. |
| Engine.MatchingEngine.Submit | src/core/matching_engine.cpp:127-236 | Gates, risk, numbering, journal, book and risk settlement take the engine, its journal and its ledger exactly one step of the venue, and the answer, number and fills are the specified ones. |
| Engine.MatchingEngine.Cancel | src/core/matching_engine.cpp:238-281 | The same for a cancel: only the order's own account may, and a halt does not stop it. |
| Engine.MatchingEngine.Replace | src/core/matching_engine.cpp:283-354 | The same for a replace, exposure released first and recorded again from what the book then holds. |
| Engine.MatchingEngine.AddInstrument | src/core/matching_engine.cpp:47-83 | A new instrument is numbered, journaled and given an empty book, unless its identifier or symbol is taken or invalid or it cannot be recorded. |
| Engine.MatchingEngine.SettleRisk | src/core/matching_engine.cpp:19-45 | Reporting fills and withdrawals one by one yields the specified ledger. |
| Engine.JournalWriter.Append | src/journal/writer.cpp:182-215 | A healthy writer that can store a record appends its encoding to the last segment, beginning a new one when that has reached its size; once it has failed it never accepts another. |
| Engine.FiledSized | src/journal/writer.cpp:182-215 | At every moment each segment but the last was brought to its size by its last record and by none before, and the last is short of it. |
| Venue.GapFree | src/core/matching_engine.cpp:132-186 | Over every run the journal's numbers are exactly 1, 2, and so on; while the journal is healthy there are as many as the engine has given out. |
| Venue.ReplayReproduces | src/journal/replayer.cpp:9-49 | Over every run replaying the journal reproduces the books, trade counters and, while the journal is healthy, the sequence number. |
| Venue.LiveOrderly | src/core/matching_engine.cpp:127-354 | In every reachable venue every book keeps its invariant and holds only numbers given out. |
| Conduct.OnlyOwnersAct | src/core/matching_engine.cpp:238-354 | A cancel or replace changes the venue exactly if the order is on the book of the instrument named and belongs to the account that asks. |
| Conduct.StrangersTurnedAway | src/core/matching_engine.cpp:238-354 | Anyone else is told that the order, or the instrument, is unknown, under number zero; the owner gets the next number and, unless the journal fails, the book's answer. |
| Conduct.HaltStopsNewOrdersOnly | src/core/matching_engine.cpp:132-186 | A refusal by risk or the kill switch keeps a new order out altogether and makes no difference to anything else. |
| Conduct.Numbered | src/core/matching_engine.cpp:85-99 | A command that is not turned away takes the next number; stored, it is recorded under that number with its own time; not stored, no book changes and the journal stays as it was for good. |
| Conduct.AnswersCarryTheNumber | src/core/matching_engine.cpp:127-354 | Every answer names the number its command took, zero if none. |
| Conduct.OthersUntouched | src/core/matching_engine.cpp:127-354 | No command changes the book of another instrument. |
| Conduct.GatesAnswered | src/core/matching_engine.cpp:127-186 | Unknown instrument, missing account, a risk reason and a failed journal are answered in that order, with no fill, under number zero or, for the journal, the number taken. |
| Conduct.NewOrderAnswered | src/core/matching_engine.cpp:188-236 | The answer to a new order in terms of the command: wrong lots, off the grid, identifier in use, post-only that meets an order; a refused one leaves everything but the counter. |
| Conduct.EntersAsSent | src/core/matching_engine.cpp:188-236 | The order then found has every field of the command, the next number and the time of the call; immediate-or-cancel, fill-or-kill and market orders are never found; a post-only one has no fills. |
| Conduct.TradesAsSent | src/core/matching_engine.cpp:188-236 | Every fill names the command's order, account, side and instrument, the time of the call and a price within its limit. |
| Conduct.ListedWhenFree | src/core/matching_engine.cpp:47-83 | A listing takes effect exactly if identifier and symbol are given and both are free, and adds that one empty book. |
| Conduct.DirectoryKept | src/core/matching_engine.cpp:47-83 | Over every run symbols and books name each other, one to one, and no book has the identifier zero. |
| Venue.JournalPrefix | src/core/matching_engine.cpp:85-99 | Every stretch of a journal from the start is the journal of a shorter run. |
| Crash.CrashConsistent | src/journal/reader.cpp:66-123 | For every run with a healthy journal in any number of segments, cutting every segment anywhere, reading and replaying gives exactly the state the venue had when it had recorded the commands before the first cut, and the last one when nothing is cut; outcome and records are those of `CutJournal`. |
| Crash.RefusedButRecorded | src/journal/writer.cpp:194-215 | A command whose append fails has no effect; if its record is on disk all the same, replaying the disk performs it. |
| Replaying.Replayer.Apply | src/journal/replayer.cpp:9-42 | A record gets the number and time it had and takes the engine the specified step; the report counts it. |
| Replaying.Replayer.Replay | src/journal/replayer.cpp:44-49 | Reading any segments and applying what they deliver leaves the engine at the replay of those records. |
| Replaying.CountedByType | src/journal/replayer.cpp:9-42 | Every record is counted once, under its type. |
| Restart.CrashAndRecover | tests/test_replay.cpp:222-257 | The classes themselves: an engine is run with a journal of any segment size, the disk keeps any part of each segment, and an engine rebuilt from that is the venue as it was when it had recorded what comes before the first cut. |
| Restart.TradeAndRecover | tests/test_replay.cpp:222-257 | The same for an engine with risk checks, any collars on its instruments and accounts configured on first sight. |
| Restart.Rebuild | src/journal/replayer.cpp:44-49 | From the segments of a run's journal, each cut anywhere, an engine is rebuilt at the venue of the moment before the first cut. |
| Restart.ShortRunFits | src/core/order_pool.cpp:22-29 | Every run of at most 2^32-1 commands stays within the range of a handle. |
| Trading.Trade | src/venue.cpp:72-100 | A session of an engine with journal and risk goes exactly through the states of the desk, ledger included. |
| Trading.Handle | src/venue.cpp:72-100 | One message: an unknown account is given the configured limits, and the engine takes the desk's step. |
| Trading.DeskIsLive | src/core/matching_engine.cpp:132-186 | A desk's run is a run of the venue on the commands with risk's say on each, so every law of runs holds of it. |
| Trading.DeskReplays | src/journal/replayer.cpp:9-49 | The desk's journal is numbered without a gap and replays to the desk's books. |
| RiskRuns.LedgerKept | src/core/matching_engine.cpp:311-340 | Over every run without a post-only re-queue that crosses, open orders equal the account's resting count and working quantity never exceeds what rests, with equality if no account takes on a side where it also rests. |
| RiskRuns.PositionsKept | src/risk/risk_engine.cpp:214-236 | Over every run every account's net position is the signed sum of its fills cut to a signed 64-bit word, and the sum itself exactly when that fits. |
| RiskRuns.LedgerSumsToZero | src/risk/risk_engine.cpp:214-236 | At every moment of every run the net positions of an instrument add up to minus 2^64 times the cuts, so to zero exactly when those cancel, and always when every position fits its word. |
| RiskRuns.BothShort | src/risk/risk_engine.cpp:214-236 | Two fills of 2^62 leave buyer and seller both recorded 2^63 short. |
| RiskConduct.SettledSupervision | src/core/matching_engine.cpp:41-44 | Settling a command makes the last of its fills the reference price of its instrument, and changes no collar, no other reference, no limit and no rate budget. |
| RiskConduct.ReferencesKept | src/core/matching_engine.cpp:41-44 | Over every run the reference price of every instrument is the price of its last fill, or the one it started with, and the collar the one set up. |
| RiskConduct.TermsKept | src/venue.cpp:72-100 | Over every run every known account has the configured limits and a rate budget that follows from the times of its own new orders alone; an unknown one never sent any. |
| RiskLedger.TakerExactly | src/risk/risk_engine.cpp:224-227 | After an accepted insert the taker's working quantity is right exactly unless a fill was predicted and the account already rested on that side, both known before the call. |
| RiskLedger.TakerUnderstated | src/risk/risk_engine.cpp:224-227 | An account that rests 5, takes 3 on the same side, still rests 5 and has 2 on the ledger. |
| RiskLedger.ReplaceCountsExactly | src/core/matching_engine.cpp:326-333 | A replace keeps the open-order count right exactly unless it is a post-only re-queue that crosses. |
| RiskLedger.ReplaceCoversExactly | src/core/matching_engine.cpp:326-333 | A replace keeps working quantity within what rests under exactly the same condition. |
| RiskLedger.InsertAccounts | src/core/order_book.cpp:290-374 | What every account has resting after an insert, in orders and in quantity, follows from the fills and withdrawals reported. |
| RiskSettle.SettledEffect | src/core/matching_engine.cpp:19-45 | Settling the reports of one command moves every account's open orders and working quantity by their sums, clamped at zero. |
| Risk.RiskEngine.CheckOrder | src/risk/risk_engine.cpp:115-181 | The verdict and the spent rate budget are those of the specification, in the order the checks are made. |
| Risk.RiskEngine.CheckCollar | src/risk/risk_engine.cpp:69-113 | The collar accepts exactly the prices inside its band and not further than (2^64-1)/10000 from the reference, and everything where there is nothing to compare with. |
| Risk.RiskEngine.ConfigureInstrument | src/risk/risk_engine.cpp:27-29 | The collar of an instrument is set and its reference price left alone. |
| Risk.RiskEngine.ConsumeRateBudget | src/risk/risk_engine.cpp:42-67 | A message on time pushes the arrival time on by one interval; a late one changes nothing. |
| Risk.RiskEngine.OnFill | src/risk/risk_engine.cpp:214-236 | Both parties' working quantity falls, clamped, and their net positions move by the fill in opposite directions, in a signed word. |
| Risk.RiskEngine.OnOrderRested | src/risk/risk_engine.cpp:183-192 | One more open order and its remaining quantity working; an unknown account is created. |
| Risk.RiskEngine.OnWorkingReleased | src/risk/risk_engine.cpp:194-212 | Working quantity falls by at most what is recorded; an unknown account or instrument changes nothing. |
| Risk.RiskEngine.OnOrderClosed | src/risk/risk_engine.cpp:238-246 | One open order fewer, never below zero. |
| RiskChecks.NotionalExact | src/risk/risk_engine.cpp:136-155 | The notional test rejects exactly when price times quantity exceeds the limit, even when the product wraps. |
| RiskChecks.CollarSound | src/risk/risk_engine.cpp:69-113 | The collar never admits a price outside its band. |
| RiskChecks.CollarExact | src/risk/risk_engine.cpp:69-113 | It decides as integers of any size would exactly when the deviation is at most (2^64-1)/10000 or the price is outside the band anyway. |
| RiskChecks.CollarTooStrict | src/risk/risk_engine.cpp:69-113 | A price inside its band that is rejected. |
| RiskChecks.CollarExactInDefaultBand | include/xc/core/instrument.hpp:57-58 | In the default price band the collar is exact. |
| RiskChecks.PositionExact | src/risk/risk_engine.cpp:161-178 | For every exposure, order and cap the position test refuses just what would be past the cap exactly under a condition on the two projected positions and the cap, with working quantities, projections and cap all read in two's complement. |
| RiskChecks.PositionMisread | src/risk/risk_engine.cpp:161-178 | On a flat account every order of 2^63 or more passes every cap below that. |
| RiskChecks.CapMisread | src/risk/risk_engine.cpp:161-178 | A cap of 2^63 or more refuses a flat account every order, rightly only those above the cap. |
| RiskChecks.ProjectionMisread | include/xc/risk/exposure.hpp:23-30 | An account 2^62 long may buy 2^62 more under a cap of 2^62: the projected position itself overflows. |
| RiskChecks.AcceptedExactly | src/risk/risk_engine.cpp:115-181 | For every order of a configured account the whole verdict equals the one in integers of any size exactly where the widths of collar and position do not change it. |
| RiskChecks.WindowBound | src/risk/risk_engine.cpp:42-67 | Of any stretch of messages whose first and last are admitted, at most burst plus elapsed time over interval are (the virtual-scheduling algorithm of ITU-T I.371 Annex A). |
| RiskChecks.PatientIsAdmitted | src/risk/risk_engine.cpp:42-67 | A message no earlier than the theoretical arrival time is always admitted. |
| RiskChecks.BurstIsExact | src/risk/risk_engine.cpp:42-67 | Of n messages at once on a rested account exactly the smaller of n and the burst are admitted. |
| RiskChecks.FasterIsUnlimited | src/risk/risk_engine.cpp:42-67 | A rate above 10^9 a second has interval zero and limits nothing. |
| RiskChecks.RateIsPerSecond | src/risk/risk_engine.cpp:42-67 | Within a second at most the burst and the rate are admitted, whenever the rate divides 10^9. |
| RiskChecks.SteadyIsAdmitted | src/risk/risk_engine.cpp:42-67 | Messages that keep the pace are all admitted. |
| RiskChecks.ReasonsInOrder | src/risk/risk_engine.cpp:115-181 | Rate comes first, then the collar, then limits; only the sender's rate budget is spent, and not by a message refused for its rate; an unknown account meets the collar alone. |
| RiskChecks.CollarOfFivePercent | src/risk/risk_engine.cpp:69-113 | 500 basis points around 10000 admit exactly the prices from 9500 to 10500. |
| RiskChecks.NothingToCollar | src/risk/risk_engine.cpp:69-113 | No collar, no reference price, a market order or a price of zero is let through. |
| RiskChecks.UnconfiguredStaysFree | src/risk/risk_engine.cpp:115-192 | An account seen first by a resting order is limited by nothing afterwards but a notional past 64 bits. |
| WireMessages.EncodeFrame | src/protocol/messages.cpp:14-28 | Header, payload and back-patched length append exactly the frame of the message. |
| WireMessages.DecodeFrame | src/protocol/messages.cpp:220-358 | The decoder gives exactly the specified verdict on any bytes. |
| WireMessages.DecodeMessageExact | src/protocol/messages.cpp:104-358 | Bytes are received as a message exactly when they begin with its frame, unclipped and within 8192 bytes of payload, for all twelve kinds. |
| WireMessages.FramePrefixPartial | src/protocol/messages.cpp:220-262 | Every proper prefix of a frame is merely partial. |
| WireMessages.FrameStable | src/protocol/messages.cpp:220-358 | No verdict but partial changes when bytes are appended. |
| WireMessages.DepthReceivedExactly | src/protocol/messages.cpp:196-213 | Of any snapshot the first 256 levels a side are received exactly if they are at most 409 in all; beyond that the decoder refuses the frame. |
| WireMessages.HeaderDecides | src/protocol/messages.cpp:220-262 | Version, type and length decide first: a bad header is malformed, and a good one partial exactly when bytes are missing. |
| Layouts.NewOrderFrame | src/protocol/messages.cpp:104-117 | The bytes of a new order's frame, one by one. |
| Layouts.CommandFrames | src/protocol/messages.cpp:119-137 | The bytes of cancel and replace frames. |
| Layouts.AckFrames | src/protocol/messages.cpp:140-159 | The bytes of the three acknowledgements. |
| Layouts.ReasonBytes | include/xc/core/types.hpp:93-115 | The byte of every reason for refusal. |
| Layouts.RejectFrame | src/protocol/messages.cpp:161-169 | The bytes of a refusal. |
| Layouts.FillFrames | src/protocol/messages.cpp:171-183 | The bytes of an execution and of a trade. |
| Layouts.MarketFrames | src/protocol/messages.cpp:185-218 | The bytes of a top of book and of a heartbeat. |
| Layouts.DepthFrame | src/protocol/messages.cpp:196-213 | The bytes of a depth snapshot: the first 256 levels a side, counts before them. |
| Gateway.Connection.OnReadable | src/net/tcp_gateway.cpp:178-236 | One read delivers every whole message, keeps the rest, and closes on a malformed frame or a change of account. |
| Gateway.ChunkingIrrelevant | src/net/tcp_gateway.cpp:178-236 | What is delivered and kept does not depend on how the stream is cut into reads. |
| Gateway.StreamDelivered | src/net/tcp_gateway.cpp:178-236 | Messages of one account sent back to back are delivered, in order and nothing else. |
| Gateway.OneAccount | src/net/tcp_gateway.cpp:202-217 | Whatever arrives, all commands delivered from a connection name one account, the one it already had if it had one. |
| Gateway.AnotherAccountCloses | src/net/tcp_gateway.cpp:202-217 | A command naming another account closes the connection and is not delivered. |
| Histograms.Partition | src/util/histogram.cpp:20-75 | A value's index is the one bucket whose range holds it. |
| Histograms.Adjacent | src/util/histogram.cpp:36-75 | The ranges follow one another without gap or overlap. |
| Histograms.Monotone | src/util/histogram.cpp:20-34 | Larger values never have smaller indices. |
| Histograms.Precision | src/util/histogram.cpp:36-75 | Above the linear range a bucket is no wider than its lowest value divided by 2^(bits-1). |
| Histograms.Coarseness | src/util/histogram.cpp:36-75 | Below 2^bits a bucket is one value; above, its highest value is less than 2^bits times its width, so no range is finer than it has to be. |
| Histograms.BucketsFit | src/util/histogram.cpp:36-75 | For 64-bit values no shift reaches the width of a word and no bucket ends past it. |
| Histograms.Histogram.Record | src/util/histogram.cpp:77-98 | Counts, total, smallest and largest are those of the samples with the new one added. |
| Histograms.Histogram.ValueAtRank | src/util/histogram.cpp:100-135 | For a rank within range at least that many samples are at most the value, fewer are below its bucket, and it is at most the largest sample. |
| Histograms.Histogram.Merge | src/util/histogram.cpp:153-167 | Merging histograms of one shape is recording both sample streams. |

## Left out

- Wrap-around of 64-bit quantities, of level totals and working quantities, of the counts of open orders, trades and
  commands, and of histogram totals: they are natural numbers here. The widths are modelled in net positions and the
  risk checks, the codecs, the checksum and the ladder's words.
- OrderBooks.OrderBook.Submit: asks for fewer than 2^32-1 resting orders, because slab handles are 32 bits wide and the
  program asserts that they suffice; so does the engine for the book of a new order, and runs at each of their moments.
- Engine.MatchingEngine.Submit: asks for sequence numbers below 2^64, as every command of the engine does; the kill
  switch is the input `blocked`, and its counters are not modelled.
- Differential.Compare: takes submissions whose remaining equals their quantity, which is what the engine sends; on
  other values the optimised book resets the field and the reference book keeps it.
- Engine.MatchingEngine.AddInstrument: asks for a well-formed instrument (tick, lot, minimum quantity and price at least
  1, maximum price not below minimum), because the program does not check it and divides by the tick; and for a symbol
  under 65536 bytes, because a longer one makes the journal unreadable (`ListedExactly`).
- Engine.JournalWriter.Append: whether a record is stored is the input `stored`; buffering, short writes and fsync are
  operating system behaviour, and what they lose in a crash is a cut.
- Engine.MatchingEngine.RestoreSequence: asks for a number not below the current one, which is how replay uses it.
- Replaying.Replayer.Apply: asks for a record number above the counter, for the same reason.
- Replaying.Replayer.Replay: asks that the records define well-formed instruments, as those of any engine run do.
- Restart.CrashAndRecover: runs one engine and one restart; how the journal goes on after that is stated of its bytes
  (`GoesOn`).
- RiskChecks.PositionExact: takes recorded working quantities below 2^64, the width of their fields; order and cap are
  any 64-bit numbers.
- RiskChecks.AcceptedExactly: the same.
- WireMessages.EncodeFrame: the twelve encoders and decoders are written through one table of field layouts, not
  twelve times.
- Gateway.Connection.OnReadable: a handler that closes the connection in the middle of a read is not modelled.
- Histograms.Histogram.ValueAtRank: takes the integer rank; the percentile arithmetic and the mean are floating point.
- HashMap.FlatHashMap.Insert: over any hash function; the mixing of the hash is not modelled, nor are key types other
  than numbers.
- `max_position` as a cap over whole runs: a replace is never checked and working quantity can be understated, so the
  program does not give it; only the decision on each submission is stated.
- `expected_resting_orders`, slab and table capacities, growth counters and allocation counts: performance, not meaning.
- `top_of_book`, best bid and ask, `quantity_at`, `total_quantity`, the state digest, listeners and display strings: easy
  consequences of the book's state.
- Sockets, the event loop, the UDP feed and gap detector, directory reading, `truncate_to`, the node pool, the
  applications and the web front end.
