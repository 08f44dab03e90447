/** The wire protocol: length-prefixed frames of fixed-width fields. */
module WireMessages {
  import opened Types
  import opened Commands
  import opened ByteCodec
  import opened JournalRecord

  datatype OrderAck = OrderAck(order: U64, account: U64, instrument: U64, filled: U64, remaining: U64, timestamp: I64)

  datatype OrderReject = OrderReject(order: U64, account: U64, reason: RejectReason, timestamp: I64)

  datatype WireFill = WireFill(
    id: U64, instrument: U64, price: I64, quantity: U64, aggressorOrder: U64, restingOrder: U64,
    aggressorAccount: U64, restingAccount: U64, aggressorSide: Side, restingFilled: bool, timestamp: I64)

  datatype TopOfBook = TopOfBook(instrument: U64, bidPrice: I64, bidQuantity: U64, askPrice: I64, askQuantity: U64)

  datatype Level = Level(price: I64, quantity: U64, orders: U32)

  datatype Content =
    | NewOrderMessage(order: NewOrder)
    | CancelMessage(cancel: CancelOrder)
    | ReplaceMessage(replace: ReplaceOrder)
    | AcceptedMessage(ack: OrderAck)
    | RejectedMessage(reject: OrderReject)
    | CancelledMessage(ack: OrderAck)
    | ReplacedMessage(ack: OrderAck)
    | ExecutionMessage(fill: WireFill)
    | TradeMessage(fill: WireFill)
    | TopMessage(top: TopOfBook)
    | DepthMessage(instrument: U64, bids: seq<Level>, asks: seq<Level>)
    | HeartbeatMessage

  datatype Message = Message(sequence: U64, content: Content)

  const FRAME_HEADER := 12
  const FRAME_PAYLOAD := 8192
  const PROTOCOL_VERSION: U8 := 1
  const MAX_DEPTH_LEVELS := 256

  function MessageCode(c: Content): U8 {
    match c
    case NewOrderMessage(_) => 1
    case CancelMessage(_) => 2
    case ReplaceMessage(_) => 3
    case AcceptedMessage(_) => 16
    case RejectedMessage(_) => 17
    case CancelledMessage(_) => 18
    case ReplacedMessage(_) => 19
    case ExecutionMessage(_) => 20
    case TradeMessage(_) => 32
    case TopMessage(_) => 33
    case DepthMessage(_, _, _) => 34
    case HeartbeatMessage => 48
  }

  predicate KnownMessage(code: nat) { code in {1, 2, 3, 16, 17, 18, 19, 20, 32, 33, 34, 48} }

  function ReasonCode(r: RejectReason): U8 {
    match r
    case Accepted => 0 case UnknownInstrument => 1 case UnknownOrder => 2 case DuplicateOrderId =>
        3 case InvalidPrice => 4
    case InvalidQuantity => 5 case InvalidSide => 6 case FillOrKillUnfillable => 7 case PostOnlyWouldCross => 8
    case SelfTrade => 9 case RiskLimit => 10 case PriceCollar => 11 case Halted => 12 case RateLimit => 13
  }

  function ReasonOf(n: nat): RejectReason {
    if n == 0 then Accepted else if n == 1 then UnknownInstrument else if n == 2 then UnknownOrder
    else if n == 3 then DuplicateOrderId else if n == 4 then InvalidPrice else if n == 5 then InvalidQuantity
    else if n == 6 then InvalidSide else if n == 7 then FillOrKillUnfillable else if n == 8 then PostOnlyWouldCross
    else if n == 9 then SelfTrade else if n == 10 then RiskLimit else if n == 11 then PriceCollar
    else if n == 12 then Halted else RateLimit
  }

  // ----- depth levels

  function LevelKinds(n: nat): (ks: seq<Kind>)
    ensures |ks| == 3 * n
  {
    if n == 0 then [] else [WORD, WORD, Fixed(4)] + LevelKinds(n - 1)
  }

  function LevelFields(ls: seq<Level>): (fs: seq<Field>)
    ensures |fs| == 3 * |ls|
  {
    if ls == [] then [] else [Num(Unsigned(ls[0].price)), Num(ls[0].quantity), Num(ls[0].orders)] + LevelFields(ls[1..])
  }

  function LevelsFrom(fs: seq<Field>, n: nat): seq<Level>
    requires |fs| == 3 * n && AllFit(fs, LevelKinds(n))
  {
    if n == 0 then []
    else
      LevelFits(fs, n);
      [Level(Signed(fs[0].value), fs[1].value, fs[2].value)] + LevelsFrom(fs[3..], n - 1)
  }

  lemma LevelFits(fs: seq<Field>, n: nat)
    requires n > 0 && |fs| == 3 * n && AllFit(fs, LevelKinds(n))
    ensures fs[0].Num? && fs[1].Num? && fs[2].Num? && IsU64(fs[0].value) && IsU64(fs[1].value)
            && fs[2].value < 0x1_0000_0000
    ensures AllFit(fs[3..], LevelKinds(n - 1))
  {
    Powers();
    var ks := LevelKinds(n);
    assert Fits(fs[0], ks[0]) && Fits(fs[1], ks[1]) && Fits(fs[2], ks[2]);
    forall i | 0 <= i < |fs| - 3 ensures Fits(fs[3..][i], LevelKinds(n - 1)[i]) {
      assert Fits(fs[i + 3], ks[i + 3]);
    }
  }

  lemma {:induction false} LevelsFit(ls: seq<Level>)
    ensures AllFit(LevelFields(ls), LevelKinds(|ls|))
  {
    Powers();
    if ls != [] {
      LevelsFit(ls[1..]);
      var fs, ks := LevelFields(ls), LevelKinds(|ls|);
      forall i | 0 <= i < |fs| ensures Fits(fs[i], ks[i]) {
        assert i >= 3 ==> Fits(LevelFields(ls[1..])[i - 3], LevelKinds(|ls| - 1)[i - 3]);
      }
    }
  }

  lemma {:induction false} LevelsRoundTrip(ls: seq<Level>)
    ensures AllFit(LevelFields(ls), LevelKinds(|ls|)) && LevelsFrom(LevelFields(ls), |ls|) == ls
  {
    hide AllFit;
    LevelsFit(ls);
    if ls != [] {
      LevelsRoundTrip(ls[1..]);
      assert LevelFields(ls)[3..] == LevelFields(ls[1..]);
      SignedBack(ls[0].price);
    }
  }

  lemma {:induction false} FieldsRoundTrip(fs: seq<Field>, n: nat)
    requires |fs| == 3 * n && AllFit(fs, LevelKinds(n))
    ensures var ls := LevelsFrom(fs, n); |ls| == n && LevelFields(ls) == fs
  {
    hide AllFit;
    if n > 0 {
      LevelFits(fs, n);
      FieldsRoundTrip(fs[3..], n - 1);
      var ls := LevelsFrom(fs, n);
      assert ls[1..] == LevelsFrom(fs[3..], n - 1);
      assert fs == [fs[0], fs[1], fs[2]] + fs[3..];
    }
  }

  // ----- layouts

  const ORDER_KINDS := [WORD, WORD, WORD, Bounded(1), Bounded(1), Bounded(3), Bounded(1), WORD, WORD]
  const FILL_KINDS := [WORD, WORD, WORD, WORD, WORD, WORD, WORD, WORD, Bounded(1), Bounded(1), WORD]

  /** The fields of every message but a depth snapshot. */
  function PlainKinds(code: nat): seq<Kind>
    requires KnownMessage(code) && code != 34
  {
    if code == 1 then ORDER_KINDS
    else if code == 2 then [WORD, WORD, WORD]
    else if code == 3 then [WORD, WORD, WORD, WORD, WORD]
    else if code in {16, 18, 19} then [WORD, WORD, WORD, WORD, WORD, WORD]
    else if code == 17 then [WORD, WORD, Bounded(13), WORD]
    else if code in {20, 32} then FILL_KINDS
    else if code == 33 then [WORD, WORD, WORD, WORD, WORD]
    else []
  }

  function AckFields(a: OrderAck): seq<Field> {
    [Num(a.order), Num(a.account), Num(a.instrument), Num(a.filled), Num(a.remaining), Num(Unsigned(a.timestamp))]
  }

  function FillFields(f: WireFill): seq<Field> {
    [Num(f.id), Num(f.instrument), Num(Unsigned(f.price)), Num(f.quantity), Num(f.aggressorOrder), Num(f.restingOrder),
     Num(f.aggressorAccount), Num(f.restingAccount), Num(SideCode(f.aggressorSide)), Num(FlagCode(f.restingFilled)),
     Num(Unsigned(f.timestamp))]
  }

  function PlainFields(c: Content): seq<Field>
    requires !c.DepthMessage?
  {
    match c
    case NewOrderMessage(o) =>
      [Num(o.id), Num(o.account), Num(o.instrument), Num(SideCode(o.side)), Num(KindCode(o.kind)), Num(TifCode(o.tif)),
       Num(FlagCode(o.postOnly)), Num(Unsigned(o.price)), Num(o.quantity)]
    case CancelMessage(m) => [Num(m.id), Num(m.account), Num(m.instrument)]
    case ReplaceMessage(m) => [Num(m.id), Num(m.account), Num(m.instrument), Num(Unsigned(m.newPrice)),
                               Num(m.newQuantity)]
    case AcceptedMessage(a) => AckFields(a)
    case CancelledMessage(a) => AckFields(a)
    case ReplacedMessage(a) => AckFields(a)
    case RejectedMessage(r) => [Num(r.order), Num(r.account), Num(ReasonCode(r.reason)), Num(Unsigned(r.timestamp))]
    case ExecutionMessage(f) => FillFields(f)
    case TradeMessage(f) => FillFields(f)
    case TopMessage(t) =>
      [Num(t.instrument), Num(Unsigned(t.bidPrice)), Num(t.bidQuantity), Num(Unsigned(t.askPrice)), Num(t.askQuantity)]
    case HeartbeatMessage => []
  }

  /** What the kinds of a layout say about its fields. */
  lemma FieldRanges(fs: seq<Field>, ks: seq<Kind>)
    requires AllFit(fs, ks)
    ensures forall i :: 0 <= i < |ks| && ks[i] == WORD ==> fs[i].Num? && IsU64(fs[i].value)
    ensures forall i :: 0 <= i < |ks| && ks[i].Bounded? ==> fs[i].Num? && fs[i].value <= ks[i].highest
  {
    Powers();
    forall i | 0 <= i < |ks| ensures Fits(fs[i], ks[i]) {}
  }

  function AckFrom(fs: seq<Field>): OrderAck
    requires AllFit(fs, [WORD, WORD, WORD, WORD, WORD, WORD])
  {
    FieldRanges(fs, [WORD, WORD, WORD, WORD, WORD, WORD]);
    OrderAck(fs[0].value, fs[1].value, fs[2].value, fs[3].value, fs[4].value, Signed(fs[5].value))
  }

  function FillFrom(fs: seq<Field>): WireFill
    requires AllFit(fs, FILL_KINDS)
  {
    FieldRanges(fs, FILL_KINDS);
    WireFill(fs[0].value, fs[1].value, Signed(fs[2].value), fs[3].value, fs[4].value, fs[5].value, fs[6].value,
             fs[7].value,
             SideOf(fs[8].value), fs[9].value == 1, Signed(fs[10].value))
  }

  function OrderFrom(fs: seq<Field>): NewOrder
    requires AllFit(fs, ORDER_KINDS)
  {
    FieldRanges(fs, ORDER_KINDS);
    NewOrder(fs[0].value, fs[1].value, fs[2].value, SideOf(fs[3].value), KindOf(fs[4].value), TifOf(fs[5].value),
             Signed(fs[7].value), fs[8].value, fs[6].value == 1)
  }

  function PlainFrom(code: nat, fs: seq<Field>): Content
    requires KnownMessage(code) && code != 34 && AllFit(fs, PlainKinds(code))
  {
    FieldRanges(fs, PlainKinds(code));
    if code == 1 then NewOrderMessage(OrderFrom(fs))
    else if code == 2 then CancelMessage(CancelOrder(fs[0].value, fs[1].value, fs[2].value))
    else if code == 3 then
      ReplaceMessage(ReplaceOrder(fs[0].value, fs[1].value, fs[2].value, Signed(fs[3].value), fs[4].value))
    else if code == 16 then AcceptedMessage(AckFrom(fs))
    else if code == 17 then
      RejectedMessage(OrderReject(fs[0].value, fs[1].value, ReasonOf(fs[2].value), Signed(fs[3].value)))
    else if code == 18 then CancelledMessage(AckFrom(fs))
    else if code == 19 then ReplacedMessage(AckFrom(fs))
    else if code == 20 then ExecutionMessage(FillFrom(fs))
    else if code == 32 then TradeMessage(FillFrom(fs))
    else if code == 33 then
      TopMessage(TopOfBook(fs[0].value, Signed(fs[1].value), fs[2].value, Signed(fs[3].value), fs[4].value))
    else HeartbeatMessage
  }

  lemma PlainFit(c: Content)
    requires !c.DepthMessage?
    ensures AllFit(PlainFields(c), PlainKinds(MessageCode(c)))
  {
    hide Power256;
    Powers();
  }

  lemma AckRoundTrip(a: OrderAck)
    requires AllFit(AckFields(a), [WORD, WORD, WORD, WORD, WORD, WORD])
    ensures AckFrom(AckFields(a)) == a
  {
    hide AllFit;
    SignedBack(a.timestamp);
  }

  lemma FillRoundTrip(f: WireFill)
    requires AllFit(FillFields(f), FILL_KINDS)
    ensures FillFrom(FillFields(f)) == f
  {
    hide AllFit;
    SignedBack(f.price);
    SignedBack(f.timestamp);
  }

  lemma PlainRoundTrip(c: Content)
    requires !c.DepthMessage?
    ensures AllFit(PlainFields(c), PlainKinds(MessageCode(c))) && PlainFrom(MessageCode(c), PlainFields(c)) == c
  {
    hide AllFit, AckFields, FillFields, AckFrom, FillFrom;
    PlainFit(c);
    match c
    case NewOrderMessage(o) =>
      SignedBack(o.price);
      assert TifOf(TifCode(o.tif)) == o.tif;
    case CancelMessage(_) =>
    case ReplaceMessage(m) => SignedBack(m.newPrice);
    case AcceptedMessage(a) => AckRoundTrip(a);
    case CancelledMessage(a) => AckRoundTrip(a);
    case ReplacedMessage(a) => AckRoundTrip(a);
    case RejectedMessage(r) =>
      SignedBack(r.timestamp);
      assert ReasonOf(ReasonCode(r.reason)) == r.reason;
    case ExecutionMessage(f) => FillRoundTrip(f);
    case TradeMessage(f) => FillRoundTrip(f);
    case TopMessage(t) =>
      SignedBack(t.bidPrice);
      SignedBack(t.askPrice);
    case HeartbeatMessage =>
  }

  lemma AckBack(fs: seq<Field>)
    requires AllFit(fs, [WORD, WORD, WORD, WORD, WORD, WORD])
    ensures AckFields(AckFrom(fs)) == fs
  {
    FieldRanges(fs, [WORD, WORD, WORD, WORD, WORD, WORD]);
  }

  lemma FillBack(fs: seq<Field>)
    requires AllFit(fs, FILL_KINDS)
    ensures FillFields(FillFrom(fs)) == fs
  {
    hide AllFit;
    FitLength(fs, FILL_KINDS);
    FieldRanges(fs, FILL_KINDS);
  }

  lemma FitLength(fs: seq<Field>, ks: seq<Kind>)
    requires AllFit(fs, ks)
    ensures |fs| == |ks|
  {
  }

  lemma PlainBack(code: nat, fs: seq<Field>)
    requires KnownMessage(code) && code != 34 && AllFit(fs, PlainKinds(code))
    ensures var c := PlainFrom(code, fs); MessageCode(c) == code && !c.DepthMessage? && PlainFields(c) == fs
  {
    hide AllFit, AckFields, FillFields, AckFrom, FillFrom;
    FitLength(fs, PlainKinds(code));
    FieldRanges(fs, PlainKinds(code));
    if code in {16, 18, 19} {
      AckBack(fs);
    } else if code in {20, 32} {
      FillBack(fs);
    }
  }

  // ----- depth snapshots

  const DEPTH_START := [WORD, Fixed(2)]

  function DepthKinds(n: nat, m: nat): seq<Kind> { DEPTH_START + LevelKinds(n) + [Fixed(2)] + LevelKinds(m) }

  function DepthFields(instrument: U64, bids: seq<Level>, asks: seq<Level>): (fs: seq<Field>)
    ensures |fs| == 3 + 3 * |bids| + 3 * |asks|
  {
    [Num(instrument), Num(|bids|)] + LevelFields(bids) + [Num(|asks|)] + LevelFields(asks)
  }

  lemma {:induction false} FitConcat(fs: seq<Field>, ks: seq<Kind>, gs: seq<Field>, ls: seq<Kind>)
    requires |fs| == |ks|
    ensures AllFit(fs + gs, ks + ls) <==> AllFit(fs, ks) && AllFit(gs, ls)
  {
    hide Fits;
    if AllFit(fs + gs, ks + ls) {
      forall i | 0 <= i < |fs| ensures Fits(fs[i], ks[i]) {
        assert Fits((fs + gs)[i], (ks + ls)[i]);
      }
      forall i | 0 <= i < |gs| ensures Fits(gs[i], ls[i]) {
        assert Fits((fs + gs)[|fs| + i], (ks + ls)[|fs| + i]);
      }
    }
  }

  lemma DepthFit(instrument: U64, bids: seq<Level>, asks: seq<Level>)
    requires |bids| <= MAX_DEPTH_LEVELS && |asks| <= MAX_DEPTH_LEVELS
    ensures AllFit(DepthFields(instrument, bids, asks), DepthKinds(|bids|, |asks|))
  {
    hide LevelFields, LevelKinds;
    Powers();
    LevelsFit(bids);
    LevelsFit(asks);
    var head := [Num(instrument), Num(|bids|)];
    assert AllFit(head, DEPTH_START);
    FitConcat(head, DEPTH_START, LevelFields(bids), LevelKinds(|bids|));
    FitConcat(head + LevelFields(bids), DEPTH_START + LevelKinds(|bids|), [Num(|asks|)], [Fixed(2)]);
    FitConcat(head + LevelFields(bids) + [Num(|asks|)], DEPTH_START + LevelKinds(|bids|) + [Fixed(2)],
              LevelFields(asks), LevelKinds(|asks|));
  }

  /** The parts of a snapshot's fields. */
  function DepthFrom(n: nat, m: nat, fs: seq<Field>): Content
    requires AllFit(fs, DepthKinds(n, m))
  {
    DepthParts(n, m, fs);
    DepthMessage(fs[0].value, LevelsFrom(fs[2..2 + 3 * n], n), LevelsFrom(fs[3 + 3 * n..], m))
  }

  lemma DepthParts(n: nat, m: nat, fs: seq<Field>)
    requires AllFit(fs, DepthKinds(n, m))
    ensures |fs| == 3 + 3 * n + 3 * m && fs[0].Num? && IsU64(fs[0].value) && fs[1].Num? && fs[2 + 3 * n].Num?
    ensures AllFit(fs[2..2 + 3 * n], LevelKinds(n)) && AllFit(fs[3 + 3 * n..], LevelKinds(m))
  {
    hide LevelKinds;
    Powers();
    var head, bids, count, asks := fs[..2], fs[2..2 + 3 * n], [fs[2 + 3 * n]], fs[3 + 3 * n..];
    assert fs == head + bids + count + asks;
    FitConcat(head + bids + count, DEPTH_START + LevelKinds(n) + [Fixed(2)], asks, LevelKinds(m));
    FitConcat(head + bids, DEPTH_START + LevelKinds(n), count, [Fixed(2)]);
    FitConcat(head, DEPTH_START, bids, LevelKinds(n));
    assert Fits(head[0], WORD) && Fits(head[1], Fixed(2)) && Fits(count[0], Fixed(2));
  }

  lemma DepthRoundTrip(instrument: U64, bids: seq<Level>, asks: seq<Level>)
    requires |bids| <= MAX_DEPTH_LEVELS && |asks| <= MAX_DEPTH_LEVELS
    ensures AllFit(DepthFields(instrument, bids, asks), DepthKinds(|bids|, |asks|))
    ensures DepthFrom(|bids|, |asks|, DepthFields(instrument, bids, asks)) == DepthMessage(instrument, bids, asks)
  {
    hide LevelFields, LevelKinds, LevelsFrom, AllFit;
    DepthFit(instrument, bids, asks);
    var fs, n := DepthFields(instrument, bids, asks), |bids|;
    DepthParts(n, |asks|, fs);
    assert fs[2..2 + 3 * n] == LevelFields(bids) && fs[3 + 3 * n..] == LevelFields(asks);
    LevelsRoundTrip(bids);
    LevelsRoundTrip(asks);
  }

  lemma DepthBack(n: nat, m: nat, fs: seq<Field>)
    requires AllFit(fs, DepthKinds(n, m)) && |fs| == 3 + 3 * n + 3 * m && fs[1] == Num(n) && fs[2 + 3 * n] == Num(m)
    ensures var c := DepthFrom(n, m, fs);
            c.DepthMessage? && |c.bids| == n && |c.asks| == m && DepthFields(c.instrument, c.bids, c.asks) == fs
  {
    hide LevelFields, LevelKinds, LevelsFrom, AllFit;
    DepthParts(n, m, fs);
    FieldsRoundTrip(fs[2..2 + 3 * n], n);
    FieldsRoundTrip(fs[3 + 3 * n..], m);
    assert fs == [fs[0], fs[1]] + fs[2..2 + 3 * n] + [fs[2 + 3 * n]] + fs[3 + 3 * n..];
  }

  function DepthPayload(instrument: U64, bids: seq<Level>, asks: seq<Level>): seq<U8>
    requires |bids| <= MAX_DEPTH_LEVELS && |asks| <= MAX_DEPTH_LEVELS
  {
    DepthFit(instrument, bids, asks);
    FitsMatching(DepthFields(instrument, bids, asks), DepthKinds(|bids|, |asks|));
    Written(DepthFields(instrument, bids, asks), DepthKinds(|bids|, |asks|))
  }

  /** The count of a side is checked against its bound and against the bytes there are, before
      any level is read. */
  function DecodeDepth(p: seq<U8>): Option<Content> {
    match ReadBack(DEPTH_START, p)
    case None => None
    case Some((f1, used1)) =>
      ReadBackExact(DEPTH_START, p, f1, used1);
      var n := f1[1].value;
      if n > MAX_DEPTH_LEVELS || |p| - used1 < 20 * n then None
      else match ReadBack(DEPTH_START + LevelKinds(n) + [Fixed(2)], p)
        case None => None
        case Some((f2, used2)) =>
          AskCount(p, n, f2, used2);
          var m := f2[2 + 3 * n].value;
          if m > MAX_DEPTH_LEVELS || |p| - used2 < 20 * m then None
          else match ReadBack(DepthKinds(n, m), p)
            case None => None
            case Some((fs, used)) =>
              ReadBackExact(DepthKinds(n, m), p, fs, used);
              if used == |p| then Some(DepthFrom(n, m, fs)) else None
  }

  lemma AskCount(p: seq<U8>, n: nat, fs: seq<Field>, used: nat)
    requires ReadBack(DEPTH_START + LevelKinds(n) + [Fixed(2)], p) == Some((fs, used))
    ensures |fs| == 3 + 3 * n && fs[2 + 3 * n].Num?
  {
    hide LevelKinds, ReadBack;
    var ks := DEPTH_START + LevelKinds(n) + [Fixed(2)];
    ReadBackExact(ks, p, fs, used);
    assert Fits(fs[2 + 3 * n], ks[2 + 3 * n]);
  }

  lemma {:induction false} LevelsLength(fs: seq<Field>, n: nat)
    requires AllFit(fs, LevelKinds(n))
    ensures Matching(fs, LevelKinds(n)) && |Written(fs, LevelKinds(n))| == 20 * n
  {
    FitsMatching(fs, LevelKinds(n));
    if n > 0 {
      FitLength(fs, LevelKinds(n));
      LevelFits(fs, n);
      LevelsLength(fs[3..], n - 1);
      var head, ks := fs[..3], [WORD, WORD, Fixed(4)];
      assert fs == head + fs[3..];
      WrittenConcat(head, ks, fs[3..], LevelKinds(n - 1));
      ThreeWritten(head);
    }
  }

  lemma ThreeWritten(fs: seq<Field>)
    requires |fs| == 3 && Matching(fs, [WORD, WORD, Fixed(4)])
    ensures |Written(fs, [WORD, WORD, Fixed(4)])| == 20
  {
    var ks := [WORD, WORD, Fixed(4)];
    assert ks[1..] == [WORD, Fixed(4)] && ks[1..][1..] == [Fixed(4)] && ks[1..][1..][1..] == [];
    assert fs[1..] == [fs[1], fs[2]] && fs[1..][1..] == [fs[2]] && fs[1..][1..][1..] == [];
    assert Written(fs[1..][1..], [Fixed(4)]) == WrittenField(fs[2], Fixed(4)) + Written([], []);
  }

  lemma DepthLength(instrument: U64, bids: seq<Level>, asks: seq<Level>)
    requires |bids| <= MAX_DEPTH_LEVELS && |asks| <= MAX_DEPTH_LEVELS
    ensures |DepthPayload(instrument, bids, asks)| == 12 + 20 * |bids| + 20 * |asks|
  {
    hide LevelKinds, LevelFields, Written, AllFit, Matching;
    var head, count := [Num(instrument), Num(|bids|)], [Num(|asks|)];
    var b, a, kb, ka := LevelFields(bids), LevelFields(asks), LevelKinds(|bids|), LevelKinds(|asks|);
    LevelsFit(bids);
    LevelsFit(asks);
    LevelsLength(b, |bids|);
    LevelsLength(a, |asks|);
    HeadLength(instrument, |bids|, |asks|);
    WrittenConcat(head, DEPTH_START, b, kb);
    WrittenConcat(head + b, DEPTH_START + kb, count, [Fixed(2)]);
    WrittenConcat(head + b + count, DEPTH_START + kb + [Fixed(2)], a, ka);
  }

  lemma HeadLength(instrument: U64, n: nat, m: nat)
    ensures Matching([Num(instrument), Num(n)], DEPTH_START) && |Written([Num(instrument), Num(n)], DEPTH_START)| == 10
    ensures Matching([Num(m)], [Fixed(2)]) && |Written([Num(m)], [Fixed(2)])| == 2
  {
    assert [Num(instrument), Num(n)][1..] == [Num(n)] && DEPTH_START[1..] == [Fixed(2)];
    assert [Num(n)][1..] == [] && [Num(m)][1..] == [] && [Fixed(2)][1..] == [];
    assert Written([Num(n)], [Fixed(2)]) == WrittenField(Num(n), Fixed(2)) + Written([], []);
    assert Written([Num(m)], [Fixed(2)]) == WrittenField(Num(m), Fixed(2)) + Written([], []);
  }

  /** A snapshot decodes exactly from its own payload. */
  lemma DecodeDepthExact(p: seq<U8>, c: Content)
    ensures DecodeDepth(p) == Some(c) <==>
            c.DepthMessage? && |c.bids| <= MAX_DEPTH_LEVELS && |c.asks| <= MAX_DEPTH_LEVELS
            && DepthPayload(c.instrument, c.bids, c.asks) == p
  {
    if DecodeDepth(p) == Some(c) {
      DecodedDepth(p);
    }
    if c.DepthMessage? && |c.bids| <= MAX_DEPTH_LEVELS && |c.asks| <= MAX_DEPTH_LEVELS
        && DepthPayload(c.instrument, c.bids, c.asks) == p {
      DepthDecodes(c.instrument, c.bids, c.asks);
    }
  }

  lemma DepthDecodes(instrument: U64, bids: seq<Level>, asks: seq<Level>)
    requires |bids| <= MAX_DEPTH_LEVELS && |asks| <= MAX_DEPTH_LEVELS
    ensures DecodeDepth(DepthPayload(instrument, bids, asks)) == Some(DepthMessage(instrument, bids, asks))
  {
    hide LevelKinds, LevelFields, LevelsFrom, ReadBack, Written, AllFit, Matching;
    var n, m, p := |bids|, |asks|, DepthPayload(instrument, bids, asks);
    var fs, ks := DepthFields(instrument, bids, asks), DepthKinds(n, m);
    DepthFit(instrument, bids, asks);
    FitsMatching(fs, ks);
    ReadBackExact(ks, p, fs, |p|);
    DepthRoundTrip(instrument, bids, asks);
    DepthLength(instrument, bids, asks);
    var two := DEPTH_START + LevelKinds(n) + [Fixed(2)];
    ReadBackStart(two, LevelKinds(m), p, fs, |p|);
    var f2 := fs[..|two|];
    AskCount(p, n, f2, |Written(f2, two)|);
    assert f2[2 + 3 * n] == Num(m);
    assert DEPTH_START + (LevelKinds(n) + [Fixed(2)]) == two;
    ReadBackStart(DEPTH_START, LevelKinds(n) + [Fixed(2)], p, f2, |Written(f2, two)|);
    var f1 := f2[..2];
    assert f1 == [Num(instrument), Num(n)];
    HeadLength(instrument, n, m);
    assert f2 == f1 + LevelFields(bids) + [Num(m)];
    LevelsFit(bids);
    LevelsLength(LevelFields(bids), n);
    WrittenConcat(f1, DEPTH_START, LevelFields(bids), LevelKinds(n));
    WrittenConcat(f1 + LevelFields(bids), DEPTH_START + LevelKinds(n), [Num(m)], [Fixed(2)]);
  }

  lemma DecodedDepth(p: seq<U8>)
    requires DecodeDepth(p).Some?
    ensures var c := DecodeDepth(p).value;
            c.DepthMessage? && |c.bids| <= MAX_DEPTH_LEVELS && |c.asks| <= MAX_DEPTH_LEVELS
            && DepthPayload(c.instrument, c.bids, c.asks) == p
  {
    hide LevelKinds, LevelFields, LevelsFrom, ReadBack, Written, AllFit, Matching;
    var (f1, used1) := ReadBack(DEPTH_START, p).value;
    ReadBackExact(DEPTH_START, p, f1, used1);
    StartFits(f1);
    var n := f1[1].value;
    var two := DEPTH_START + LevelKinds(n) + [Fixed(2)];
    var (f2, used2) := ReadBack(two, p).value;
    AskCount(p, n, f2, used2);
    var m := f2[2 + 3 * n].value;
    var (fs, used) := ReadBack(DepthKinds(n, m), p).value;
    ReadBackExact(DepthKinds(n, m), p, fs, used);
    ReadBackStart(two, LevelKinds(m), p, fs, used);
    assert DEPTH_START + (LevelKinds(n) + [Fixed(2)]) == two;
    ReadBackStart(DEPTH_START, LevelKinds(n) + [Fixed(2)], p, f2, used2);
    assert fs[2 + 3 * n] == f2[2 + 3 * n] && fs[1] == f2[1] == f1[1];
    DepthParts(n, m, fs);
    DepthBack(n, m, fs);
    FitsMatching(fs, DepthKinds(n, m));
    assert p[..used] == p && Written(fs, DepthKinds(n, m))[..used] == Written(fs, DepthKinds(n, m));
  }

  lemma StartFits(fs: seq<Field>)
    requires AllFit(fs, DEPTH_START)
    ensures |fs| == 2 && fs[1].Num?
  {
    assert Fits(fs[1], DEPTH_START[1]);
  }

  // ----- contents and frames

  /** What is sent of a snapshot: at most 256 levels a side. */
  function Clipped(c: Content): (d: Content)
    ensures d.DepthMessage? <==> c.DepthMessage?
    ensures d.DepthMessage? ==> |d.bids| <= MAX_DEPTH_LEVELS && |d.asks| <= MAX_DEPTH_LEVELS
  {
    if c.DepthMessage? then
      c.(bids := c.bids[..Min(|c.bids|, MAX_DEPTH_LEVELS)], asks := c.asks[..Min(|c.asks|, MAX_DEPTH_LEVELS)])
    else c
  }

  function ContentPayload(c: Content): seq<U8> {
    var d := Clipped(c);
    if d.DepthMessage? then DepthPayload(d.instrument, d.bids, d.asks)
    else
      PlainFit(d);
      FitsMatching(PlainFields(d), PlainKinds(MessageCode(d)));
      Written(PlainFields(d), PlainKinds(MessageCode(d)))
  }

  function DecodeContent(code: nat, p: seq<U8>): Option<Content>
    requires KnownMessage(code)
  {
    if code == 34 then DecodeDepth(p)
    else match ReadBack(PlainKinds(code), p)
      case None => None
      case Some((fs, n)) =>
        ReadBackExact(PlainKinds(code), p, fs, n);
        if n == |p| then Some(PlainFrom(code, fs)) else None
  }

  /** Nothing of the message is clipped away. */
  predicate Unclipped(c: Content) { Clipped(c) == c }

  lemma DecodeContentExact(code: nat, p: seq<U8>, c: Content)
    requires KnownMessage(code)
    ensures DecodeContent(code, p) == Some(c) <==> MessageCode(c) == code && Unclipped(c) && ContentPayload(c) == p
  {
    hide ReadBack, Written, AllFit, PlainKinds, PlainFields, PlainFrom, DecodeDepth, DepthPayload;
    if code == 34 {
      DecodeDepthExact(p, c);
      NotClipped(c);
    } else {
      if DecodeContent(code, p) == Some(c) {
        var (fs, n) := ReadBack(PlainKinds(code), p).value;
        ReadBackExact(PlainKinds(code), p, fs, n);
        PlainBack(code, fs);
        FitsMatching(fs, PlainKinds(code));
        assert p[..n] == p && Written(fs, PlainKinds(code))[..n] == Written(fs, PlainKinds(code));
      }
      if MessageCode(c) == code && Unclipped(c) && ContentPayload(c) == p {
        PlainRoundTrip(c);
        FitsMatching(PlainFields(c), PlainKinds(code));
        ReadBackExact(PlainKinds(code), p, PlainFields(c), |p|);
      }
    }
  }

  lemma NotClipped(c: Content)
    ensures c.DepthMessage? ==> (Unclipped(c) <==> |c.bids| <= MAX_DEPTH_LEVELS && |c.asks| <= MAX_DEPTH_LEVELS)
    ensures c.DepthMessage? <==> MessageCode(c) == 34
  {
    if c.DepthMessage? && |c.bids| <= MAX_DEPTH_LEVELS && |c.asks| <= MAX_DEPTH_LEVELS {
      assert c.bids[..|c.bids|] == c.bids && c.asks[..|c.asks|] == c.asks;
    }
  }

  function EncodeMessage(m: Message): seq<U8> {
    Little(|ContentPayload(m.content)|, 2) + [MessageCode(m.content), PROTOCOL_VERSION] + Little(m.sequence, 8)
    + ContentPayload(m.content)
  }

  datatype Received = Whole(message: Message, consumed: nat) | Partial | Malformed

  predicate GoodFrame(data: seq<U8>)
    requires |data| >= FRAME_HEADER
  {
    data[3] == PROTOCOL_VERSION && KnownMessage(data[2]) && Value(data[..2]) <= FRAME_PAYLOAD
  }

  function DecodeMessage(data: seq<U8>): Received {
    if |data| < FRAME_HEADER then Partial
    else if !GoodFrame(data) then Malformed
    else
      var total := FRAME_HEADER + Value(data[..2]);
      if |data| < total then Partial
      else match DecodeContent(data[2], data[FRAME_HEADER..total])
        case None => Malformed
        case Some(c) =>
          SequenceFits(data[4..12]);
          Whole(Message(Value(data[4..12]), c), total)
  }

  lemma SequenceFits(bytes: seq<U8>)
    requires |bytes| == 8
    ensures IsU64(Value(bytes))
  {
    Powers();
    LittleValue(bytes);
  }

  /** The message fits a frame: no side clipped, and no more than 8192 bytes in all. */
  predicate Sendable(m: Message) {
    Unclipped(m.content) && |ContentPayload(m.content)| <= FRAME_PAYLOAD
  }

  lemma FrameLayout(m: Message, data: seq<U8>)
    requires EncodeMessage(m) <= data
    ensures var p := ContentPayload(m.content);
            var total := FRAME_HEADER + |p|;
            && |EncodeMessage(m)| == total && data[..2] == Little(|p|, 2) && data[2] == MessageCode(m.content)
            && data[3] == PROTOCOL_VERSION && data[4..12] == Little(m.sequence, 8) && data[FRAME_HEADER..total] == p
  {
    hide ContentPayload, Little, MessageCode;
    var e, p := EncodeMessage(m), ContentPayload(m.content);
    assert e[..2] == Little(|p|, 2) && e[4..12] == Little(m.sequence, 8) && e[12..] == p;
    assert data[..|e|] == e;
  }

  /** A frame is refused for its version, its type or a length above 8192 before its payload is
      waited for; a good header waits for as many bytes as it announces. */
  lemma HeaderDecides(data: seq<U8>)
    requires |data| >= 12
    ensures var length := Value(data[..2]);
            var good := data[3] == 1 && data[2] in {1, 2, 3, 16, 17, 18, 19, 20, 32, 33, 34, 48} && length <= 8192;
            && (!good ==> DecodeMessage(data) == Malformed)
            && (good ==> (DecodeMessage(data) == Partial <==> |data| < 12 + length))
  {
    hide DecodeContent, Value;
  }

  lemma KnownContent(c: Content)
    ensures KnownMessage(MessageCode(c))
  {
  }

  /** Decoding undoes encoding, and nothing else decodes: bytes are received as a message exactly
      when the frame of that message, whole and within bounds, is at their front. */
  lemma DecodeMessageExact(data: seq<U8>, m: Message, n: nat)
    ensures DecodeMessage(data) == Whole(m, n) <==> Sendable(m) && n == |EncodeMessage(m)| && EncodeMessage(m) <= data
  {
    hide DecodeContent, ContentPayload, Little, Value, MessageCode, KnownMessage, Unclipped;
    Powers();
    if DecodeMessage(data) == Whole(m, n) {
      var total := FRAME_HEADER + Value(data[..2]);
      LittleValue(data[..2]);
      LittleValue(data[4..12]);
      DecodeContentExact(data[2], data[FRAME_HEADER..total], m.content);
      assert EncodeMessage(m) == data[..2] + [data[2], data[3]] + data[4..12]
             + data[FRAME_HEADER..total] == data[..total];
    }
    if Sendable(m) && n == |EncodeMessage(m)| && EncodeMessage(m) <= data {
      FrameLayout(m, data);
      ValueLittle(|ContentPayload(m.content)|, 2);
      ValueLittle(m.sequence, 8);
      KnownContent(m.content);
      DecodeContentExact(data[2], ContentPayload(m.content), m.content);
    }
  }

  /** Cut anywhere, a frame is merely partial. */
  lemma FramePrefixPartial(m: Message, k: nat)
    requires Sendable(m) && k < |EncodeMessage(m)|
    ensures DecodeMessage(EncodeMessage(m)[..k]) == Partial
  {
    hide DecodeContent, ContentPayload, Little, Value, MessageCode, KnownMessage, Unclipped;
    Powers();
    var e := EncodeMessage(m);
    FrameLayout(m, e);
    if k >= FRAME_HEADER {
      assert e[..k][..2] == e[..2];
      ValueLittle(|ContentPayload(m.content)|, 2);
      KnownContent(m.content);
    }
  }

  /** More bytes do not change a verdict, unless it was that bytes are missing. */
  lemma FrameStable(data: seq<U8>, more: seq<U8>)
    requires DecodeMessage(data) != Partial
    ensures DecodeMessage(data + more) == DecodeMessage(data)
  {
    hide DecodeContent, Value, KnownMessage;
    var d := data + more;
    assert d[..2] == data[..2] && d[4..12] == data[4..12];
    if GoodFrame(data) {
      var total := FRAME_HEADER + Value(data[..2]);
      assert d[FRAME_HEADER..total] == data[FRAME_HEADER..total];
    }
  }

  /** Of any snapshot the best 256 levels a side are sent.  They are received, and nothing else is,
      exactly if they are at most 409 in all: beyond that the encoder emits a frame that the
      decoder refuses. */
  lemma DepthReceivedExactly(sequence: U64, instrument: U64, bids: seq<Level>, asks: seq<Level>)
    ensures var best, offers := Min(|bids|, MAX_DEPTH_LEVELS), Min(|asks|, MAX_DEPTH_LEVELS);
            var sent := EncodeMessage(Message(sequence, DepthMessage(instrument, bids, asks)));
            DecodeMessage(sent) ==
              if best + offers <= 409 then Whole(Message(sequence,
                                                         DepthMessage(instrument, bids[..best], asks[..offers])),
                                                         |sent|)
              else Malformed
  {
    hide DecodeContent, Little, Value, DepthPayload;
    var c := Clipped(DepthMessage(instrument, bids, asks));
    var m := Message(sequence, c);
    var e := EncodeMessage(m);
    assert c.bids[..Min(|c.bids|, MAX_DEPTH_LEVELS)] == c.bids && c.asks[..Min(|c.asks|, MAX_DEPTH_LEVELS)] == c.asks;
    assert Clipped(c) == c && EncodeMessage(Message(sequence, DepthMessage(instrument, bids, asks))) == e;
    NotClipped(c);
    DepthLength(instrument, c.bids, c.asks);
    if |c.bids| + |c.asks| <= 409 {
      DecodeMessageExact(e, m, |e|);
    } else {
      Powers();
      FrameLayout(m, e);
      ValueLittle(|ContentPayload(c)|, 2);
    }
  }

  // ----- the encoder and the decoder as they run

  /** Writes fields by their layout. */
  method PutAll(writer: ByteWriter, fs: seq<Field>, ks: seq<Kind>)
    requires writer.Valid() && AllFit(fs, ks)
    modifies writer
    ensures writer.Valid() && writer.fields == old(writer.fields) + fs && writer.kinds == old(writer.kinds) + ks
  {
    hide Written, Matching, AllFit;
    FitLength(fs, ks);
    for i := 0 to |fs|
      invariant writer.Valid() && writer.fields == old(writer.fields) + fs[..i]
                && writer.kinds == old(writer.kinds) + ks[..i]
    {
      FitAt(fs, ks, i);
      match ks[i] {
        case Fixed(w) => writer.Put(fs[i].value, w);
        case Bounded(_) => writer.PutByte(fs[i].value, ks[i]);
        case Text => writer.PutText(fs[i].text);
      }
      assert fs[..i + 1] == fs[..i] + [fs[i]] && ks[..i + 1] == ks[..i] + [ks[i]];
    }
    assert fs[..|fs|] == fs && ks[..|ks|] == ks;
  }

  lemma FitAt(fs: seq<Field>, ks: seq<Kind>, i: nat)
    requires AllFit(fs, ks) && i < |fs|
    ensures i < |ks| && Fits(fs[i], ks[i])
  {
  }

  lemma LevelFront(ls: seq<Level>)
    requires ls != []
    ensures LevelFields(ls) ==
            [Num(Unsigned(ls[0].price)), Num(ls[0].quantity), Num(ls[0].orders)] + LevelFields(ls[1..])
    ensures LevelKinds(|ls|) == [WORD, WORD, Fixed(4)] + LevelKinds(|ls| - 1)
  {
  }

  lemma NoLevels()
    ensures LevelFields([]) == [] && LevelKinds(0) == []
  {
  }

  method PutSide(writer: ByteWriter, levels: seq<Level>)
    requires writer.Valid() && |levels| <= MAX_DEPTH_LEVELS
    modifies writer
    ensures writer.Valid()
    ensures writer.fields == old(writer.fields) + [Num(|levels|)] + LevelFields(levels)
    ensures writer.kinds == old(writer.kinds) + [Fixed(2)] + LevelKinds(|levels|)
  {
    hide ByteWriter.Valid, Written, Matching, LevelFields, LevelKinds;
    writer.Put(|levels|, 2);
    assert levels[0..] == levels;
    NoLevels();
    for i := 0 to |levels|
      invariant writer.Valid()
      invariant writer.fields + LevelFields(levels[i..]) == old(writer.fields) + [Num(|levels|)] + LevelFields(levels)
      invariant writer.kinds + LevelKinds(|levels| - i) == old(writer.kinds) + [Fixed(2)] + LevelKinds(|levels|)
    {
      var l := levels[i];
      ghost var fs, ks := writer.fields, writer.kinds;
      writer.PutSigned(l.price);
      writer.Put(l.quantity, 8);
      writer.Put(l.orders, 4);
      LevelFront(levels[i..]);
      assert levels[i..][1..] == levels[i + 1..];
      assert writer.fields + LevelFields(levels[i + 1..]) == fs + LevelFields(levels[i..]);
      assert writer.kinds + LevelKinds(|levels| - i - 1) == ks + LevelKinds(|levels| - i);
    }
    assert levels[|levels|..] == [];
  }

  method PutContent(writer: ByteWriter, c: Content)
    requires writer.Valid() && writer.fields == [] && writer.kinds == []
    modifies writer
    ensures writer.out == writer.start + ContentPayload(c)
  {
    hide Written, Matching, AllFit, LevelFields, LevelKinds, PlainFields, PlainKinds;
    if c.DepthMessage? {
      var d := Clipped(c);
      writer.Put(d.instrument, 8);
      PutSide(writer, d.bids);
      PutSide(writer, d.asks);
      assert writer.fields == DepthFields(d.instrument, d.bids, d.asks);
      assert writer.kinds == DepthKinds(|d.bids|, |d.asks|);
    } else {
      PlainFit(c);
      PutAll(writer, PlainFields(c), PlainKinds(MessageCode(c)));
      assert writer.fields == PlainFields(c) && writer.kinds == PlainKinds(MessageCode(c));
    }
  }

  /** Appends a frame: the header with its length left open, the payload, then the length. */
  method EncodeFrame(m: Message, out: seq<U8>) returns (result: seq<U8>)
    ensures result == out + EncodeMessage(m)
  {
    hide Written, Matching, ContentPayload, MessageCode, Little;
    var start := |out|;
    var header := new ByteWriter(out);
    header.Put(0, 2);
    header.PutByte(MessageCode(m.content), Fixed(1));
    header.PutByte(PROTOCOL_VERSION, Fixed(1));
    header.Put(m.sequence, 8);
    HeaderWritten(MessageCode(m.content), m.sequence);
    assert header.fields == [Num(0), Num(MessageCode(m.content)), Num(PROTOCOL_VERSION), Num(m.sequence)];
    assert header.kinds == [Fixed(2), Fixed(1), Fixed(1), WORD];
    var writer := new ByteWriter(header.out);
    PutContent(writer, m.content);
    var payload := |writer.out| - start - FRAME_HEADER;
    assert writer.out[start..] == Little(0, 2) + [MessageCode(m.content), PROTOCOL_VERSION] + Little(m.sequence, 8)
           + ContentPayload(m.content);
    result := writer.out[start := payload % 256][start + 1 := payload / 256 % 256];
    TwoBytes(payload);
    assert result[..start] == out;
    assert result[start..start + 2] == Little(payload, 2);
    assert result[start + 2..] == writer.out[start..][2..];
    assert result == result[..start] + result[start..start + 2] + result[start + 2..];
  }

  lemma TwoBytes(n: nat)
    ensures Little(n, 2) == [n % 256, n / 256 % 256]
  {
    assert Little(n / 256, 1) == [n / 256 % 256] + Little(n / 256 / 256, 0);
  }

  lemma HeaderWritten(code: U8, sequence: U64)
    ensures var fs, ks := [Num(0), Num(code), Num(PROTOCOL_VERSION), Num(sequence)],
            [Fixed(2), Fixed(1), Fixed(1), WORD];
            Matching(fs, ks) && Written(fs, ks) == Little(0, 2) + [code, PROTOCOL_VERSION] + Little(sequence, 8)
  {
    hide Little;
    OneByte(code);
    OneByte(PROTOCOL_VERSION);
    WrittenNext([], [], Num(0), Fixed(2));
    WrittenNext([Num(0)], [Fixed(2)], Num(code), Fixed(1));
    WrittenNext([Num(0), Num(code)], [Fixed(2), Fixed(1)], Num(PROTOCOL_VERSION), Fixed(1));
    WrittenNext([Num(0), Num(code), Num(PROTOCOL_VERSION)], [Fixed(2), Fixed(1), Fixed(1)], Num(sequence), WORD);
    assert [] + [Num(0)] == [Num(0)] && [] + [Fixed(2)] == [Fixed(2)];
    assert [Num(0)] + [Num(code)] == [Num(0), Num(code)] && [Fixed(2)] + [Fixed(1)] == [Fixed(2), Fixed(1)];
    assert [Num(0), Num(code)] + [Num(PROTOCOL_VERSION)] == [Num(0), Num(code), Num(PROTOCOL_VERSION)];
    assert [Fixed(2), Fixed(1)] + [Fixed(1)] == [Fixed(2), Fixed(1), Fixed(1)];
    assert [Num(0), Num(code), Num(PROTOCOL_VERSION)] + [Num(sequence)] ==
           [Num(0), Num(code), Num(PROTOCOL_VERSION), Num(sequence)];
    assert [Fixed(2), Fixed(1), Fixed(1)] + [WORD] == [Fixed(2), Fixed(1), Fixed(1), WORD];
  }

  /** Reads fields by their layout; after a failure what is returned means nothing. */
  method TakeAll(reader: ByteReader, ks: seq<Kind>) returns (fs: seq<Field>)
    requires reader.Valid()
    modifies reader
    ensures reader.Valid() && reader.kinds == old(reader.kinds) + ks && (old(reader.failed) ==> reader.failed)
    ensures !reader.failed ==> reader.fields == old(reader.fields) + fs && |fs| == |ks|
  {
    hide ReadBack;
    fs := [];
    for i := 0 to |ks|
      invariant reader.Valid() && reader.kinds == old(reader.kinds) + ks[..i] && (old(reader.failed) ==> reader.failed)
      invariant !reader.failed ==> reader.fields == old(reader.fields) + fs && |fs| == i
    {
      match ks[i] {
        case Fixed(w) =>
          var v := reader.Take(w);
          fs := fs + [Num(v)];
        case Bounded(highest) =>
          var v := reader.Enumeration(highest);
          fs := fs + [Num(v)];
        case Text =>
          var t := reader.TakeText();
          fs := fs + [Str(t)];
      }
      assert ks[..i + 1] == ks[..i] + [ks[i]];
    }
    assert ks[..|ks|] == ks;
  }

  method TakeDepth(p: seq<U8>) returns (c: Option<Content>)
    ensures c == DecodeDepth(p)
  {
    hide ReadBack, LevelKinds, LevelsFrom, AllFit;
    var reader := new ByteReader(p);
    var head := TakeAll(reader, DEPTH_START);
    assert reader.kinds == DEPTH_START;
    if reader.failed {
      return None;
    }
    assert reader.fields == head;
    ReadBackExact(DEPTH_START, p, head, reader.offset);
    StartFits(head);
    var n := head[1].value;
    if n > MAX_DEPTH_LEVELS || |p| - reader.offset < 20 * n {
      return None;
    }
    var more := TakeAll(reader, LevelKinds(n) + [Fixed(2)]);
    assert reader.kinds == DEPTH_START + LevelKinds(n) + [Fixed(2)];
    if reader.failed {
      return None;
    }
    assert reader.fields == head + more;
    AskCount(p, n, head + more, reader.offset);
    var m := (head + more)[2 + 3 * n].value;
    if m > MAX_DEPTH_LEVELS || |p| - reader.offset < 20 * m {
      return None;
    }
    var rest := TakeAll(reader, LevelKinds(m));
    assert reader.kinds == DepthKinds(n, m);
    if !reader.FullyConsumed() {
      return None;
    }
    assert reader.fields == head + more + rest;
    ReadBackExact(DepthKinds(n, m), p, head + more + rest, reader.offset);
    c := Some(DepthFrom(n, m, head + more + rest));
  }

  method DecodeFrame(data: seq<U8>) returns (r: Received)
    ensures r == DecodeMessage(data)
  {
    hide ReadBack, DecodeDepth, Value, PlainKinds, PlainFrom, AllFit;
    if |data| < FRAME_HEADER {
      return Partial;
    }
    var header := new ByteReader(data[..FRAME_HEADER]);
    Powers();
    var length := header.Take(2);
    var code := header.Take(1);
    var version := header.Take(1);
    var sequence := TakeWord(header);
    FrameHeaderReads(data);
    assert header.kinds == [Fixed(2), Fixed(1), Fixed(1), WORD];
    assert !header.failed && header.fields == [Num(length), Num(code), Num(version), Num(sequence)];
    if version != PROTOCOL_VERSION || !KnownMessage(code) || length > FRAME_PAYLOAD {
      return Malformed;
    }
    var total := FRAME_HEADER + length;
    if |data| < total {
      return Partial;
    }
    var p := data[FRAME_HEADER..total];
    var content: Option<Content>;
    if code == 34 {
      content := TakeDepth(p);
    } else {
      var reader := new ByteReader(p);
      var fs := TakeAll(reader, PlainKinds(code));
      assert reader.kinds == PlainKinds(code);
      if reader.FullyConsumed() {
        assert reader.fields == fs;
        ReadBackExact(PlainKinds(code), p, fs, |p|);
        content := Some(PlainFrom(code, fs));
      } else {
        content := None;
      }
    }
    return if content.None? then Malformed else Whole(Message(sequence, content.value), total);
  }

  lemma FrameHeaderReads(data: seq<U8>)
    requires |data| >= FRAME_HEADER
    ensures ReadBack([Fixed(2), Fixed(1), Fixed(1), WORD], data[..FRAME_HEADER]) ==
            Some(([Num(Value(data[..2])), Num(data[2]), Num(data[3]), Num(Value(data[4..12]))], FRAME_HEADER))
  {
    hide Value, ReadBack;
    var h := data[..FRAME_HEADER];
    ReadNothing(h);
    ReadBackNext([], Fixed(2), h);
    assert h[0..][..2] == data[..2];
    var k1, f1 := [Fixed(2)], [Num(Value(data[..2]))];
    assert [] + [Fixed(2)] == k1 && [] + f1 == f1;
    assert ReadBack(k1, h) == Some((f1, 2));
    ReadBackNext(k1, Fixed(1), h);
    assert h[2..][..1] == [data[2]];
    SingleValue(data[2]);
    var k2, f2 := k1 + [Fixed(1)], f1 + [Num(data[2])];
    assert ReadBack(k2, h) == Some((f2, 3));
    ReadBackNext(k2, Fixed(1), h);
    assert h[3..][..1] == [data[3]];
    SingleValue(data[3]);
    var k3, f3 := k2 + [Fixed(1)], f2 + [Num(data[3])];
    assert ReadBack(k3, h) == Some((f3, 4));
    ReadBackNext(k3, WORD, h);
    assert h[4..][..8] == data[4..12];
    assert k3 + [WORD] == [Fixed(2), Fixed(1), Fixed(1), WORD];
    assert f3 + [Num(Value(data[4..12]))] ==
           [Num(Value(data[..2])), Num(data[2]), Num(data[3]), Num(Value(data[4..12]))];
  }
}
