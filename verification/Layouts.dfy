/** Every journal record and every wire frame, byte by byte. */
module Layouts {
  import opened Types
  import opened Commands
  import opened ByteCodec
  import opened Crc32c
  import opened JournalRecord
  import opened WireMessages

  // ----- numbers in bytes, lowest first

  /** The byte of a number above its first so many. */
  function Shifted(n: nat, p: nat): U8
    requires p > 0
  {
    n / p % 0x100
  }

  function Pair(n: nat): seq<U8> { [Shifted(n, 1), Shifted(n, 0x100)] }

  function Quad(n: nat): seq<U8> { Pair(n) + [Shifted(n, 0x1_0000), Shifted(n, 0x100_0000)] }

  function Word(n: nat): seq<U8> {
    Quad(n) + [Shifted(n, 0x1_0000_0000), Shifted(n, 0x100_0000_0000), Shifted(n, 0x1_0000_0000_0000),
               Shifted(n, 0x100_0000_0000_0000)]
  }

  /** A signed number, in two's complement. */
  function Signs(n: int): nat { n % 0x1_0000_0000_0000_0000 }

  function Words(ns: seq<nat>): seq<U8> {
    if ns == [] then [] else Word(ns[0]) + Words(ns[1..])
  }

  lemma LittleSizes(n: nat)
    ensures Little(n, 1) == [Shifted(n, 1)] && Little(n, 2) == Pair(n) && Little(n, 4) == Quad(n)
    ensures Little(n, 8) == Word(n)
  {
    hide Little, Shifted;
    SmallPowers();
    LittleNothing(n);
    NextByte(n, 0, 1);
    NextByte(n, 1, 0x100);
    NextByte(n, 2, 0x1_0000);
    NextByte(n, 3, 0x100_0000);
    NextByte(n, 4, 0x1_0000_0000);
    NextByte(n, 5, 0x100_0000_0000);
    NextByte(n, 6, 0x1_0000_0000_0000);
    NextByte(n, 7, 0x100_0000_0000_0000);
  }

  lemma NextByte(n: nat, w: nat, p: nat)
    requires Power256(w) == p
    ensures p > 0 && Little(n, w + 1) == Little(n, w) + [Shifted(n, p)]
  {
    hide Little;
    LittleNext(n, w);
  }

  lemma LittleNothing(n: nat)
    ensures Little(n, 0) == []
  {
  }

  lemma SmallPowers()
    ensures Power256(0) == 1 && Power256(1) == 0x100 && Power256(2) == 0x1_0000 && Power256(3) == 0x100_0000
    ensures Power256(4) == 0x1_0000_0000 && Power256(5) == 0x100_0000_0000 && Power256(6) == 0x1_0000_0000_0000
    ensures Power256(7) == 0x100_0000_0000_0000
  {
    Powers();
    assert Power256(3) == 256 * Power256(2) && Power256(5) == 256 * Power256(4) && Power256(6) == 256 * Power256(5);
    assert Power256(7) == 256 * Power256(6);
  }

  // ----- fields in bytes

  function Nums(ns: seq<nat>): (fs: seq<Field>)
    ensures |fs| == |ns|
  {
    if ns == [] then [] else [Num(ns[0])] + Nums(ns[1..])
  }

  function WordKinds(n: nat): (ks: seq<Kind>)
    ensures |ks| == n && forall i :: 0 <= i < n ==> ks[i] == WORD
  {
    seq(n, _ => WORD)
  }

  lemma {:induction false} NumsAt(ns: seq<nat>)
    ensures forall i :: 0 <= i < |ns| ==> Nums(ns)[i] == Num(ns[i])
  {
    if ns != [] {
      NumsAt(ns[1..]);
    }
  }

  lemma {:induction false} WordsWritten(ns: seq<nat>, ks: seq<Kind>)
    requires ks == WordKinds(|ns|)
    ensures Matching(Nums(ns), ks) && Written(Nums(ns), ks) == Words(ns)
  {
    hide Little, Word;
    if ns != [] {
      WordsWritten(ns[1..], ks[1..]);
      LittleSizes(ns[0]);
      NumsAt(ns);
    }
  }

  predicate ByteKind(k: Kind) { k.Bounded? || k == Fixed(1) }

  lemma {:induction false} BytesWritten(bs: seq<U8>, ks: seq<Kind>)
    requires |ks| == |bs| && forall i :: 0 <= i < |ks| ==> ByteKind(ks[i])
    ensures Matching(Nums(bs), ks) && Written(Nums(bs), ks) == bs
  {
    hide Little;
    if bs != [] {
      BytesWritten(bs[1..], ks[1..]);
      LittleSizes(bs[0]);
      assert Shifted(bs[0], 1) == bs[0];
      NumsAt(bs);
      assert bs == [bs[0]] + bs[1..];
    }
  }

  /** Words, then bytes, then words. */
  lemma MixedWritten(front: seq<nat>, middle: seq<U8>, back: seq<nat>, ks: seq<Kind>, fs: seq<Field>)
    requires |ks| == |middle| && forall i :: 0 <= i < |ks| ==> ByteKind(ks[i])
    requires fs == Nums(front) + Nums(middle) + Nums(back)
    ensures var kinds := WordKinds(|front|) + ks + WordKinds(|back|);
            Matching(fs, kinds) && Written(fs, kinds) == Words(front) + middle + Words(back)
  {
    hide Written, Matching, Nums, WordKinds, Words, ByteKind;
    WordsWritten(front, WordKinds(|front|));
    BytesWritten(middle, ks);
    WordsWritten(back, WordKinds(|back|));
    WrittenConcat(Nums(front), WordKinds(|front|), Nums(middle), ks);
    WrittenConcat(Nums(front) + Nums(middle), WordKinds(|front|) + ks, Nums(back), WordKinds(|back|));
  }

  function SideByte(s: Side): U8 { match s case Buy => 0 case Sell => 1 }

  function KindByte(k: OrderType): U8 { match k case Limit => 0 case Market => 1 }

  function TifByte(t: TimeInForce): U8 {
    match t case Day => 0 case ImmediateOrCancel => 1 case FillOrKill => 2 case GoodTilCancelled => 3
  }

  function FlagByte(b: bool): U8 { if b then 1 else 0 }

  function PolicyByte(p: SelfTradePolicy): U8 {
    match p case Allow => 0 case CancelIncoming => 1 case CancelResting => 2 case CancelBoth => 3 case DecrementBoth =>
        4
  }

  function OrderBytes(o: NewOrder): seq<U8> {
    [SideByte(o.side), KindByte(o.kind), TifByte(o.tif), FlagByte(o.postOnly)]
  }

  // ----- journal records

  /** A record: length, checksum of what follows, number, type, version, two zeros, payload. */
  function RecordBytes(sequence: nat, code: U8, payload: seq<U8>): seq<U8> {
    var checked := Word(sequence) + [code, 2, 0, 0] + payload;
    Quad(|payload|) + CrcBytes(Crc(checked, 0)) + checked
  }

  lemma RecordFramed(r: Record)
    requires Storable(r)
    ensures Encode(r) == RecordBytes(r.sequence, TypeCode(r.body), Payload(r))
  {
    hide Little, Word, Quad, Payload, Crc, CrcBytes;
    LittleSizes(|Payload(r)|);
    LittleSizes(r.sequence);
  }

  lemma Complement(n: int)
    requires IsI64(n)
    ensures Unsigned(n) == Signs(n)
  {
  }

  lemma CodesAre(o: NewOrder, p: SelfTradePolicy)
    ensures OrderBytes(o) == [SideCode(o.side), KindCode(o.kind), TifCode(o.tif), FlagCode(o.postOnly)]
    ensures PolicyCode(p) == PolicyByte(p)
  {
  }

  /** The record of a new order. */
  lemma NewOrderRecord(sequence: U64, timestamp: I64, o: NewOrder)
    ensures Encode(Record(sequence, timestamp, NewOrderEntered(o))) ==
            RecordBytes(sequence, 2, Words([Signs(timestamp), o.id, o.account, o.instrument]) + OrderBytes(o)
                                     + Words([Signs(o.price), o.quantity]))
  {
    hide Written, Words, Encode, RecordBytes, Nums, Matching, SideCode, KindCode, TifCode, FlagCode, Unsigned, Signs,
         OrderBytes, WordKinds;
    var r := Record(sequence, timestamp, NewOrderEntered(o));
    RecordFramed(r);
    Complement(timestamp);
    Complement(o.price);
    CodesAre(o, Allow);
    var front, back := [Signs(timestamp), o.id, o.account, o.instrument], [Signs(o.price), o.quantity];
    var ks := [Bounded(1), Bounded(1), Bounded(3), Bounded(1)];
    NumsAt(front);
    NumsAt(OrderBytes(o));
    NumsAt(back);
    assert Fields(r) == Nums(front) + Nums(OrderBytes(o)) + Nums(back);
    assert Kinds(2) == WordKinds(4) + ks + WordKinds(2);
    MixedWritten(front, OrderBytes(o), back, ks, Fields(r));
  }

  lemma CancelRecord(sequence: U64, timestamp: I64, c: CancelOrder)
    ensures Encode(Record(sequence, timestamp, OrderCancelled(c))) ==
            RecordBytes(sequence, 3, Words([Signs(timestamp), c.id, c.account, c.instrument]))
  {
    hide Written, Words, Encode, RecordBytes, Nums, Matching, Unsigned, Signs, WordKinds;
    var r := Record(sequence, timestamp, OrderCancelled(c));
    RecordFramed(r);
    Complement(timestamp);
    var ns := [Signs(timestamp), c.id, c.account, c.instrument];
    NumsAt(ns);
    assert Fields(r) == Nums(ns) && Kinds(3) == WordKinds(4);
    WordsWritten(ns, WordKinds(4));
  }

  lemma ReplaceRecord(sequence: U64, timestamp: I64, c: ReplaceOrder)
    ensures Encode(Record(sequence, timestamp, OrderReplaced(c))) ==
            RecordBytes(sequence, 4, Words([Signs(timestamp), c.id, c.account, c.instrument, Signs(c.newPrice),
                                            c.newQuantity]))
  {
    hide Written, Words, Encode, RecordBytes, Nums, Matching, Unsigned, Signs, WordKinds;
    var r := Record(sequence, timestamp, OrderReplaced(c));
    RecordFramed(r);
    Complement(timestamp);
    Complement(c.newPrice);
    var ns := [Signs(timestamp), c.id, c.account, c.instrument, Signs(c.newPrice), c.newQuantity];
    NumsAt(ns);
    assert Fields(r) == Nums(ns) && Kinds(4) == WordKinds(6);
    WordsWritten(ns, WordKinds(6));
  }

  /** The record of a listing: its symbol comes with its length in front. */
  lemma InstrumentRecord(sequence: U64, timestamp: I64, i: Instrument)
    requires StorableInstrument(i)
    ensures Encode(Record(sequence, timestamp, InstrumentDefined(i))) ==
            RecordBytes(sequence, 1, Words([Signs(timestamp), i.id]) + Pair(|i.symbol|) + i.symbol
                                     + Words([Signs(i.tickSize), i.lotSize, i.minQuantity, Signs(i.minPrice),
                                              Signs(i.maxPrice)])
                                     + [i.displayExponent, PolicyByte(i.selfTradePolicy)])
  {
    hide Written, Words, Encode, RecordBytes, Nums, Matching, Unsigned, Signs, WordKinds, PolicyCode, PolicyByte, Pair;
    var r := Record(sequence, timestamp, InstrumentDefined(i));
    RecordFramed(r);
    Complement(timestamp);
    Complement(i.tickSize);
    Complement(i.minPrice);
    Complement(i.maxPrice);
    PolicyIs(i.selfTradePolicy);
    var front := [Signs(timestamp), i.id];
    var middle := [Signs(i.tickSize), i.lotSize, i.minQuantity, Signs(i.minPrice), Signs(i.maxPrice)];
    var back: seq<U8> := [i.displayExponent, PolicyByte(i.selfTradePolicy)];
    var ks := [Fixed(1), Bounded(4)];
    NumsAt(front);
    NumsAt(middle);
    NumsAt(back);
    assert Fields(r) == Nums(front) + [Str(i.symbol)] + (Nums(middle) + Nums(back));
    assert Kinds(1) == WordKinds(2) + [Text] + (WordKinds(5) + ks);
    WordsWritten(front, WordKinds(2));
    TextWritten(i.symbol);
    WordsWritten(middle, WordKinds(5));
    BytesWritten(back, ks);
    WrittenConcat(Nums(middle), WordKinds(5), Nums(back), ks);
    WrittenConcat(Nums(front), WordKinds(2), [Str(i.symbol)], [Text]);
    WrittenConcat(Nums(front) + [Str(i.symbol)], WordKinds(2) + [Text], Nums(middle) + Nums(back), WordKinds(5) + ks);
    assert Words(front) + (Pair(|i.symbol|) + i.symbol) + (Words(middle) + back) ==
           Words(front) + Pair(|i.symbol|) + i.symbol + Words(middle) + back;
  }

  lemma PolicyIs(p: SelfTradePolicy)
    ensures PolicyCode(p) == PolicyByte(p)
  {
  }

  lemma TextWritten(t: seq<U8>)
    ensures Matching([Str(t)], [Text]) && Written([Str(t)], [Text]) == Pair(|t|) + t
  {
    hide Little, Pair;
    LittleSizes(|t|);
    assert [Str(t)][1..] == [] && [Text][1..] == [] && Written([], []) == [];
    assert Little(|t|, 2) + t + [] == Little(|t|, 2) + t;
  }

  // ----- wire frames

  /** A frame: length, type, version, number, payload. */
  function FrameBytes(code: U8, sequence: nat, payload: seq<U8>): seq<U8> {
    Pair(|payload|) + [code, 1] + Word(sequence) + payload
  }

  lemma Framed(m: Message)
    ensures EncodeMessage(m) == FrameBytes(MessageCode(m.content), m.sequence, ContentPayload(m.content))
  {
    hide Little, Word, Pair, ContentPayload;
    LittleSizes(|ContentPayload(m.content)|);
    LittleSizes(m.sequence);
  }

  lemma PlainFramed(m: Message, code: U8, payload: seq<U8>)
    requires !m.content.DepthMessage? && MessageCode(m.content) == code
    requires Matching(PlainFields(m.content), PlainKinds(code))
    requires Written(PlainFields(m.content), PlainKinds(code)) == payload
    ensures EncodeMessage(m) == FrameBytes(code, m.sequence, payload)
  {
    hide Written, Matching, FrameBytes, EncodeMessage, PlainFields, PlainKinds;
    Framed(m);
  }

  lemma NewOrderFrame(sequence: U64, o: NewOrder)
    ensures EncodeMessage(Message(sequence, NewOrderMessage(o))) ==
            FrameBytes(1, sequence, Words([o.id, o.account, o.instrument]) + OrderBytes(o)
                                    + Words([Signs(o.price), o.quantity]))
  {
    hide Written, Words, FrameBytes, EncodeMessage, Nums, Matching, SideCode, KindCode, TifCode, FlagCode, Unsigned,
         Signs, OrderBytes, WordKinds;
    var m := Message(sequence, NewOrderMessage(o));
    Complement(o.price);
    CodesAre(o, Allow);
    var front, back := [o.id, o.account, o.instrument], [Signs(o.price), o.quantity];
    var ks := [Bounded(1), Bounded(1), Bounded(3), Bounded(1)];
    NumsAt(front);
    NumsAt(OrderBytes(o));
    NumsAt(back);
    assert PlainFields(m.content) == Nums(front) + Nums(OrderBytes(o)) + Nums(back);
    assert PlainKinds(1) == WordKinds(3) + ks + WordKinds(2);
    MixedWritten(front, OrderBytes(o), back, ks, PlainFields(m.content));
    PlainFramed(m, 1, Words(front) + OrderBytes(o) + Words(back));
  }

  lemma WordsFramed(m: Message, code: U8, ns: seq<nat>)
    requires !m.content.DepthMessage? && MessageCode(m.content) == code
    requires PlainFields(m.content) == Nums(ns) && PlainKinds(code) == WordKinds(|ns|)
    ensures EncodeMessage(m) == FrameBytes(code, m.sequence, Words(ns))
  {
    hide Written, Words, FrameBytes, EncodeMessage, Nums, Matching, WordKinds, PlainFields, PlainKinds;
    WordsWritten(ns, WordKinds(|ns|));
    PlainFramed(m, code, Words(ns));
  }

  lemma CommandFrames(sequence: U64, c: CancelOrder, r: ReplaceOrder)
    ensures EncodeMessage(Message(sequence, CancelMessage(c))) ==
            FrameBytes(2, sequence, Words([c.id, c.account, c.instrument]))
    ensures EncodeMessage(Message(sequence, ReplaceMessage(r))) ==
            FrameBytes(3, sequence, Words([r.id, r.account, r.instrument, Signs(r.newPrice), r.newQuantity]))
  {
    hide Written, Words, FrameBytes, EncodeMessage, Nums, Matching, Unsigned, Signs, WordKinds;
    Complement(r.newPrice);
    var ns, ms := [c.id, c.account, c.instrument], [r.id, r.account, r.instrument, Signs(r.newPrice), r.newQuantity];
    NumsAt(ns);
    NumsAt(ms);
    assert PlainKinds(2) == WordKinds(3) && PlainKinds(3) == WordKinds(5);
    WordsFramed(Message(sequence, CancelMessage(c)), 2, ns);
    WordsFramed(Message(sequence, ReplaceMessage(r)), 3, ms);
  }

  lemma AckFrames(sequence: U64, a: OrderAck)
    ensures var payload := Words([a.order, a.account, a.instrument, a.filled, a.remaining, Signs(a.timestamp)]);
            && EncodeMessage(Message(sequence, AcceptedMessage(a))) == FrameBytes(16, sequence, payload)
            && EncodeMessage(Message(sequence, CancelledMessage(a))) == FrameBytes(18, sequence, payload)
            && EncodeMessage(Message(sequence, ReplacedMessage(a))) == FrameBytes(19, sequence, payload)
  {
    hide Written, Words, FrameBytes, EncodeMessage, Nums, Matching, Unsigned, Signs, WordKinds;
    Complement(a.timestamp);
    var ns := [a.order, a.account, a.instrument, a.filled, a.remaining, Signs(a.timestamp)];
    NumsAt(ns);
    assert AckFields(a) == Nums(ns);
    assert PlainKinds(16) == WordKinds(6);
    WordsFramed(Message(sequence, AcceptedMessage(a)), 16, ns);
    WordsFramed(Message(sequence, CancelledMessage(a)), 18, ns);
    WordsFramed(Message(sequence, ReplacedMessage(a)), 19, ns);
  }

  /** The reasons are numbered in the order in which the program lists them. */
  lemma ReasonBytes()
    ensures ReasonCode(Accepted) == 0 && ReasonCode(UnknownInstrument) == 1 && ReasonCode(UnknownOrder) == 2
    ensures ReasonCode(DuplicateOrderId) == 3 && ReasonCode(InvalidPrice) == 4 && ReasonCode(InvalidQuantity) == 5
    ensures ReasonCode(InvalidSide) == 6 && ReasonCode(FillOrKillUnfillable) == 7
    ensures ReasonCode(PostOnlyWouldCross) == 8 && ReasonCode(SelfTrade) == 9 && ReasonCode(RiskLimit) == 10
    ensures ReasonCode(PriceCollar) == 11 && ReasonCode(Halted) == 12 && ReasonCode(RateLimit) == 13
  {
  }

  lemma RejectFrame(sequence: U64, r: OrderReject)
    ensures EncodeMessage(Message(sequence, RejectedMessage(r))) ==
            FrameBytes(17, sequence, Words([r.order, r.account]) + [ReasonCode(r.reason)]
                                     + Words([Signs(r.timestamp)]))
  {
    hide Written, Words, FrameBytes, EncodeMessage, Nums, Matching, Unsigned, Signs, WordKinds, ReasonCode;
    var m := Message(sequence, RejectedMessage(r));
    Complement(r.timestamp);
    var front, middle, back := [r.order, r.account], [ReasonCode(r.reason)], [Signs(r.timestamp)];
    NumsAt(front);
    NumsAt(middle);
    NumsAt(back);
    assert PlainFields(m.content) == Nums(front) + Nums(middle) + Nums(back);
    assert PlainKinds(17) == WordKinds(2) + [Bounded(13)] + WordKinds(1);
    MixedWritten(front, middle, back, [Bounded(13)], PlainFields(m.content));
    PlainFramed(m, 17, Words(front) + middle + Words(back));
  }

  lemma FillFrames(sequence: U64, f: WireFill)
    ensures var payload := Words([f.id, f.instrument, Signs(f.price), f.quantity, f.aggressorOrder, f.restingOrder,
                                  f.aggressorAccount, f.restingAccount])
                           + [SideByte(f.aggressorSide), FlagByte(f.restingFilled)] + Words([Signs(f.timestamp)]);
            && EncodeMessage(Message(sequence, ExecutionMessage(f))) == FrameBytes(20, sequence, payload)
            && EncodeMessage(Message(sequence, TradeMessage(f))) == FrameBytes(32, sequence, payload)
  {
    hide Written, Words, FrameBytes, EncodeMessage, Nums, Matching, Unsigned, Signs, WordKinds, SideByte, FlagByte,
         SideCode, FlagCode;
    Complement(f.price);
    Complement(f.timestamp);
    FillCodes(f);
    var front := [f.id, f.instrument, Signs(f.price), f.quantity, f.aggressorOrder, f.restingOrder,
                  f.aggressorAccount, f.restingAccount];
    var middle, back := [SideByte(f.aggressorSide), FlagByte(f.restingFilled)], [Signs(f.timestamp)];
    NumsAt(front);
    NumsAt(middle);
    NumsAt(back);
    assert FillFields(f) == Nums(front) + Nums(middle) + Nums(back);
    assert FILL_KINDS == WordKinds(8) + [Bounded(1), Bounded(1)] + WordKinds(1);
    MixedWritten(front, middle, back, [Bounded(1), Bounded(1)], FillFields(f));
    PlainFramed(Message(sequence, ExecutionMessage(f)), 20, Words(front) + middle + Words(back));
    PlainFramed(Message(sequence, TradeMessage(f)), 32, Words(front) + middle + Words(back));
  }

  lemma FillCodes(f: WireFill)
    ensures SideCode(f.aggressorSide) == SideByte(f.aggressorSide)
    ensures FlagCode(f.restingFilled) == FlagByte(f.restingFilled)
  {
  }

  lemma MarketFrames(sequence: U64, t: TopOfBook)
    ensures EncodeMessage(Message(sequence, TopMessage(t))) ==
            FrameBytes(33, sequence, Words([t.instrument, Signs(t.bidPrice), t.bidQuantity, Signs(t.askPrice),
                                            t.askQuantity]))
    ensures EncodeMessage(Message(sequence, HeartbeatMessage)) == FrameBytes(48, sequence, [])
  {
    hide Written, Words, FrameBytes, EncodeMessage, Nums, Matching, Unsigned, Signs, WordKinds;
    Complement(t.bidPrice);
    Complement(t.askPrice);
    var ns := [t.instrument, Signs(t.bidPrice), t.bidQuantity, Signs(t.askPrice), t.askQuantity];
    NumsAt(ns);
    NumsAt([]);
    NoWords();
    assert PlainKinds(33) == WordKinds(5) && PlainKinds(48) == WordKinds(0);
    WordsFramed(Message(sequence, TopMessage(t)), 33, ns);
    WordsFramed(Message(sequence, HeartbeatMessage), 48, []);
  }

  lemma NoWords()
    ensures Words([]) == []
  {
  }

  function LevelBytes(ls: seq<Level>): seq<U8> {
    if ls == [] then []
    else Word(Signs(ls[0].price)) + Word(ls[0].quantity) + Quad(ls[0].orders) + LevelBytes(ls[1..])
  }

  lemma {:induction false} LevelsWritten(ls: seq<Level>)
    ensures Matching(LevelFields(ls), LevelKinds(|ls|))
            && Written(LevelFields(ls), LevelKinds(|ls|)) == LevelBytes(ls)
  {
    hide Word, Quad, Little, Signs, Unsigned;
    if ls != [] {
      LevelsWritten(ls[1..]);
      Complement(ls[0].price);
      LittleSizes(Signs(ls[0].price));
      LittleSizes(ls[0].quantity);
      LittleSizes(ls[0].orders);
      LevelWritten(ls[0]);
      WrittenConcat([Num(Unsigned(ls[0].price)), Num(ls[0].quantity), Num(ls[0].orders)], [WORD, WORD, Fixed(4)],
                    LevelFields(ls[1..]), LevelKinds(|ls| - 1));
    }
  }

  lemma LevelWritten(l: Level)
    ensures var fs, ks := [Num(Unsigned(l.price)), Num(l.quantity), Num(l.orders)], [WORD, WORD, Fixed(4)];
            Matching(fs, ks) && Written(fs, ks) == Little(Unsigned(l.price), 8) + Little(l.quantity, 8)
                                                   + Little(l.orders, 4)
  {
    hide Little, Unsigned;
    var fs, ks := [Num(Unsigned(l.price)), Num(l.quantity), Num(l.orders)], [WORD, WORD, Fixed(4)];
    assert fs[1..] == [fs[1], fs[2]] && fs[1..][1..] == [fs[2]] && fs[1..][1..][1..] == [];
    assert ks[1..] == [ks[1], ks[2]] && ks[1..][1..] == [ks[2]] && ks[1..][1..][1..] == [];
    assert Written(fs[1..][1..], ks[1..][1..]) == WrittenField(fs[2], ks[2]) + Written([], []);
  }

  /** The frame of a snapshot: the first 256 levels a side, each side after its count. */
  lemma DepthFrame(sequence: U64, instrument: U64, allBids: seq<Level>, allAsks: seq<Level>)
    ensures var bids := if |allBids| <= 256 then allBids else allBids[..256];
            var asks := if |allAsks| <= 256 then allAsks else allAsks[..256];
            EncodeMessage(Message(sequence, DepthMessage(instrument, allBids, allAsks))) ==
            FrameBytes(34, sequence, Word(instrument) + Pair(|bids|) + LevelBytes(bids) + Pair(|asks|)
                                     + LevelBytes(asks))
  {
    hide Written, FrameBytes, EncodeMessage, Matching, Word, Pair, LevelBytes, LevelFields, LevelKinds, Little, AllFit;
    var m := Message(sequence, DepthMessage(instrument, allBids, allAsks));
    Framed(m);
    assert allBids[..|allBids|] == allBids && allAsks[..|allAsks|] == allAsks;
    var bids, asks := Clipped(m.content).bids, Clipped(m.content).asks;
    LevelsWritten(bids);
    LevelsWritten(asks);
    HeadWritten(instrument, |bids|, |asks|);
    var head, count := [Num(instrument), Num(|bids|)], [Num(|asks|)];
    var b, a, kb, ka := LevelFields(bids), LevelFields(asks), LevelKinds(|bids|), LevelKinds(|asks|);
    WrittenConcat(head, DEPTH_START, b, kb);
    WrittenConcat(head + b, DEPTH_START + kb, count, [Fixed(2)]);
    WrittenConcat(head + b + count, DEPTH_START + kb + [Fixed(2)], a, ka);
  }

  lemma HeadWritten(instrument: U64, n: nat, k: nat)
    ensures Matching([Num(instrument), Num(n)], DEPTH_START)
            && Written([Num(instrument), Num(n)], DEPTH_START) == Word(instrument) + Pair(n)
    ensures Matching([Num(k)], [Fixed(2)]) && Written([Num(k)], [Fixed(2)]) == Pair(k)
  {
    hide Little, Word, Pair;
    LittleSizes(instrument);
    LittleSizes(n);
    LittleSizes(k);
    assert [Num(instrument), Num(n)][1..] == [Num(n)] && DEPTH_START[1..] == [Fixed(2)];
    assert [Num(n)][1..] == [] && [Num(k)][1..] == [] && [Fixed(2)][1..] == [];
    assert Written([Num(n)], [Fixed(2)]) == WrittenField(Num(n), Fixed(2)) + Written([], []);
    assert Written([Num(k)], [Fixed(2)]) == WrittenField(Num(k), Fixed(2)) + Written([], []);
  }
}
