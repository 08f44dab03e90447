/** Journal records: framing, checksum and payload. */
module JournalRecord {
  import opened Types
  import opened Commands
  import opened ByteCodec
  import opened Crc32c

  datatype Body =
    | InstrumentDefined(instrument: Instrument)
    | NewOrderEntered(order: NewOrder)
    | OrderCancelled(cancel: CancelOrder)
    | OrderReplaced(replace: ReplaceOrder)

  datatype Record = Record(sequence: nat, timestamp: int, body: Body)

  const HEADER_SIZE := 20
  const MAX_PAYLOAD := 0x10_0000
  const RECORD_VERSION: U8 := 2

  predicate IsU64(n: int) { 0 <= n < 0x1_0000_0000_0000_0000 }

  predicate IsI64(n: int) { -0x8000_0000_0000_0000 <= n < 0x8000_0000_0000_0000 }

  /** The fixed-width fields hold the instrument. */
  predicate InWords(i: Instrument) {
    && IsU64(i.id) && IsI64(i.tickSize) && IsU64(i.lotSize) && IsU64(i.minQuantity)
    && IsI64(i.minPrice) && IsI64(i.maxPrice)
  }

  /** And its symbol's length fits sixteen bits. */
  predicate StorableInstrument(i: Instrument) { InWords(i) && |i.symbol| < 0x1_0000 }

  predicate Storable(r: Record) {
    IsU64(r.sequence) && IsI64(r.timestamp) && (r.body.InstrumentDefined? ==> StorableInstrument(r.body.instrument))
  }

  // ----- enumerations

  function SideCode(s: Side): U8 { if s.Buy? then 0 else 1 }
  function SideOf(n: nat): Side { if n == 0 then Buy else Sell }
  function KindCode(k: OrderType): U8 { if k.Limit? then 0 else 1 }
  function KindOf(n: nat): OrderType { if n == 0 then Limit else Market }
  function FlagCode(b: bool): U8 { if b then 1 else 0 }

  function TifCode(t: TimeInForce): U8 {
    match t
    case Day => 0
    case ImmediateOrCancel => 1
    case FillOrKill => 2
    case GoodTilCancelled => 3
  }

  function TifOf(n: nat): TimeInForce {
    if n == 0 then Day else if n == 1 then ImmediateOrCancel else if n == 2 then FillOrKill else GoodTilCancelled
  }

  function PolicyCode(p: SelfTradePolicy): U8 {
    match p
    case Allow => 0
    case CancelIncoming => 1
    case CancelResting => 2
    case CancelBoth => 3
    case DecrementBoth => 4
  }

  function PolicyOf(n: nat): SelfTradePolicy {
    if n == 0 then Allow else if n == 1 then CancelIncoming else if n == 2 then CancelResting
    else if n == 3 then CancelBoth else DecrementBoth
  }

  // ----- payloads

  function TypeCode(b: Body): U8 {
    match b
    case InstrumentDefined(_) => 1
    case NewOrderEntered(_) => 2
    case OrderCancelled(_) => 3
    case OrderReplaced(_) => 4
  }

  predicate KnownType(code: nat) { 1 <= code <= 4 }

  const WORD := Fixed(8)

  function Kinds(code: nat): seq<Kind>
    requires KnownType(code)
  {
    if code == 1 then [WORD, WORD, Text, WORD, WORD, WORD, WORD, WORD, Fixed(1), Bounded(4)]
    else if code == 2 then [WORD, WORD, WORD, WORD, Bounded(1), Bounded(1), Bounded(3), Bounded(1), WORD, WORD]
    else if code == 3 then [WORD, WORD, WORD, WORD]
    else [WORD, WORD, WORD, WORD, WORD, WORD]
  }

  /** The fields of a listing, whatever the length of its symbol. */
  function ListingFields(timestamp: I64, i: Instrument): seq<Field>
    requires InWords(i)
  {
    [Num(Unsigned(timestamp)), Num(i.id), Str(i.symbol), Num(Unsigned(i.tickSize)), Num(i.lotSize), Num(i.minQuantity),
     Num(Unsigned(i.minPrice)), Num(Unsigned(i.maxPrice)), Num(i.displayExponent), Num(PolicyCode(i.selfTradePolicy))]
  }

  function Fields(r: Record): seq<Field>
    requires Storable(r)
  {
    match r.body
    case InstrumentDefined(i) => ListingFields(r.timestamp, i)
    case NewOrderEntered(o) =>
      [Num(Unsigned(r.timestamp)), Num(o.id), Num(o.account), Num(o.instrument), Num(SideCode(o.side)),
       Num(KindCode(o.kind)),
       Num(TifCode(o.tif)), Num(FlagCode(o.postOnly)), Num(Unsigned(o.price)), Num(o.quantity)]
    case OrderCancelled(c) =>
      [Num(Unsigned(r.timestamp)), Num(c.id), Num(c.account), Num(c.instrument)]
    case OrderReplaced(c) =>
      [Num(Unsigned(r.timestamp)), Num(c.id), Num(c.account), Num(c.instrument), Num(Unsigned(c.newPrice)),
       Num(c.newQuantity)]
  }

  lemma KindsNumeric(code: nat, fs: seq<Field>)
    requires KnownType(code) && AllFit(fs, Kinds(code))
    ensures |fs| == |Kinds(code)| && forall i :: 0 <= i < |fs| ==> (fs[i].Num? <==> !(code == 1 && i == 2))
    ensures forall i :: 0 <= i < |fs| && Kinds(code)[i] == WORD ==> IsU64(fs[i].value)
    ensures code == 1 ==> |fs[2].text| < 0x1_0000 && fs[8].value < 0x100 && fs[9].value <= 4
    ensures code == 2 ==> fs[4].value <= 1 && fs[5].value <= 1 && fs[6].value <= 3 && fs[7].value <= 1
  {
    Powers();
    forall i | 0 <= i < |fs| ensures Fits(fs[i], Kinds(code)[i]) {}
    if code == 1 {
      assert Fits(fs[8], Fixed(1)) && Fits(fs[9], Bounded(4));
    } else if code == 2 {
      assert Fits(fs[4], Bounded(1)) && Fits(fs[5], Bounded(1)) && Fits(fs[6], Bounded(3)) && Fits(fs[7], Bounded(1));
    }
  }

  /** The record with these fields. */
  function FromFields(code: nat, sequence: nat, fs: seq<Field>): Record
    requires KnownType(code) && AllFit(fs, Kinds(code))
  {
    KindsNumeric(code, fs);
    Record(sequence, Signed(fs[0].value),
      if code == 1 then
        InstrumentDefined(Instrument(fs[1].value, fs[2].text, Signed(fs[3].value), fs[4].value, fs[5].value,
                                     Signed(fs[6].value), Signed(fs[7].value), fs[8].value, PolicyOf(fs[9].value)))
      else if code == 2 then
        NewOrderEntered(NewOrder(fs[1].value, fs[2].value, fs[3].value, SideOf(fs[4].value), KindOf(fs[5].value),
                                 TifOf(fs[6].value), Signed(fs[8].value), fs[9].value, fs[7].value == 1))
      else if code == 3 then
        OrderCancelled(CancelOrder(fs[1].value, fs[2].value, fs[3].value))
      else
        OrderReplaced(ReplaceOrder(fs[1].value, fs[2].value, fs[3].value, Signed(fs[4].value), fs[5].value)))
  }

  lemma FieldsFit(r: Record)
    requires Storable(r)
    ensures AllFit(Fields(r), Kinds(TypeCode(r.body)))
  {
    Powers();
  }

  lemma FromToFields(r: Record)
    requires Storable(r)
    ensures AllFit(Fields(r), Kinds(TypeCode(r.body))) && FromFields(TypeCode(r.body), r.sequence, Fields(r)) == r
  {
    hide AllFit, Kinds;
    FieldsFit(r);
    SignedBack(r.timestamp);
    match r.body
    case InstrumentDefined(i) =>
      SignedBack(i.tickSize);
      SignedBack(i.minPrice);
      SignedBack(i.maxPrice);
      assert PolicyOf(PolicyCode(i.selfTradePolicy)) == i.selfTradePolicy;
    case NewOrderEntered(o) =>
      SignedBack(o.price);
      assert TifOf(TifCode(o.tif)) == o.tif;
    case OrderCancelled(c) =>
    case OrderReplaced(c) => SignedBack(c.newPrice);
  }

  lemma ToFromFields(code: nat, sequence: nat, fs: seq<Field>)
    requires KnownType(code) && AllFit(fs, Kinds(code)) && IsU64(sequence)
    ensures var r := FromFields(code, sequence, fs); Storable(r) && TypeCode(r.body) == code && Fields(r) == fs
  {
    hide AllFit;
    KindsNumeric(code, fs);
  }

  lemma SignedBack(n: int)
    requires IsI64(n)
    ensures Signed(Unsigned(n)) == n
  {
  }

  function Payload(r: Record): seq<U8>
    requires Storable(r)
  {
    FieldsFit(r);
    Written(Fields(r), Kinds(TypeCode(r.body)))
  }

  function DecodePayload(code: nat, sequence: nat, payload: seq<U8>): Option<Record>
    requires KnownType(code)
  {
    match ReadBack(Kinds(code), payload)
    case None => None
    case Some((fs, n)) =>
      ReadBackExact(Kinds(code), payload, fs, n);
      if n == |payload| then Some(FromFields(code, sequence, fs)) else None
  }

  /** A payload decodes exactly when it is the payload of a record, and to that record. */
  lemma DecodePayloadExact(code: nat, sequence: nat, payload: seq<U8>, r: Record)
    requires KnownType(code) && IsU64(sequence)
    ensures DecodePayload(code, sequence, payload) == Some(r) <==>
            Storable(r) && TypeCode(r.body) == code && r.sequence == sequence && Payload(r) == payload
  {
    hide ReadBack, Written, FromFields, Fields, Kinds, AllFit;
    if DecodePayload(code, sequence, payload) == Some(r) {
      var (fs, n) := ReadBack(Kinds(code), payload).value;
      ReadBackExact(Kinds(code), payload, fs, n);
      FitsMatching(fs, Kinds(code));
      ToFromFields(code, sequence, fs);
      FromFieldsSequence(code, sequence, fs);
      assert payload[..n] == payload && Written(fs, Kinds(code))[..n] == Written(fs, Kinds(code));
    }
    if Storable(r) && TypeCode(r.body) == code && r.sequence == sequence && Payload(r) == payload {
      FromToFields(r);
      FitsMatching(Fields(r), Kinds(code));
      ReadBackExact(Kinds(code), payload, Fields(r), |payload|);
    }
  }

  lemma FromFieldsSequence(code: nat, sequence: nat, fs: seq<Field>)
    requires KnownType(code) && AllFit(fs, Kinds(code))
    ensures FromFields(code, sequence, fs).sequence == sequence
  {
  }

  // ----- whole records

  /** The part of a record that the checksum covers. */
  function CheckedPart(r: Record): seq<U8>
    requires Storable(r)
  {
    Little(r.sequence, 8) + [TypeCode(r.body), RECORD_VERSION, 0, 0] + Payload(r)
  }

  function Encode(r: Record): seq<U8>
    requires Storable(r)
  {
    Little(|Payload(r)|, 4) + CrcBytes(Crc(CheckedPart(r), 0)) + CheckedPart(r)
  }

  datatype Decoded = Ok(record: Record, consumed: nat) | Incomplete | Corrupt | Unreadable

  /** Can this build interpret the header? */
  predicate GoodHeader(data: seq<U8>)
    requires |data| >= HEADER_SIZE
  {
    data[17] == RECORD_VERSION && KnownType(data[16]) && Value(data[18..20]) == 0 && Value(data[..4]) <= MAX_PAYLOAD
  }

  function Decode(data: seq<U8>): Decoded {
    if |data| < HEADER_SIZE then Incomplete
    else if !GoodHeader(data) then Unreadable
    else
      var total := HEADER_SIZE + Value(data[..4]);
      if |data| < total then Incomplete
      else if CrcBytes(Crc(data[8..total], 0)) != data[4..8] then Corrupt
      else match DecodePayload(data[16], Value(data[8..16]), data[HEADER_SIZE..total])
        case None => Unreadable
        case Some(r) => Ok(r, total)
  }

  lemma {:induction false} WrittenBound(fs: seq<Field>, ks: seq<Kind>)
    requires AllFit(fs, ks) && forall i :: 0 <= i < |ks| && ks[i].Fixed? ==> ks[i].width <= 8
    ensures Matching(fs, ks) && |Written(fs, ks)| <= 0x1_0001 * |fs|
  {
    FitsMatching(fs, ks);
    if fs != [] {
      AllFitFront(fs, ks);
      WrittenBound(fs[1..], ks[1..]);
      assert Fits(fs[0], ks[0]);
    }
  }

  lemma PayloadBound(r: Record)
    requires Storable(r)
    ensures |Payload(r)| <= MAX_PAYLOAD
  {
    hide Written, Fields, AllFit;
    FieldsFit(r);
    WrittenBound(Fields(r), Kinds(TypeCode(r.body)));
  }

  /** Where everything is in an encoded record. */
  lemma Layout(r: Record, data: seq<U8>)
    requires Storable(r) && Encode(r) <= data
    ensures var total := HEADER_SIZE + |Payload(r)|;
            && |Encode(r)| == total
            && data[..4] == Little(|Payload(r)|, 4) && data[4..8] == CrcBytes(Crc(CheckedPart(r), 0))
            && data[8..total] == CheckedPart(r) && data[8..16] == Little(r.sequence, 8)
            && data[16] == TypeCode(r.body) && data[17] == RECORD_VERSION && data[18..20] == [0, 0]
            && data[HEADER_SIZE..total] == Payload(r)
  {
    hide Payload, Crc, CrcBytes, Little, TypeCode;
    var e, c := Encode(r), CheckedPart(r);
    assert e[..4] == Little(|Payload(r)|, 4) && e[4..8] == CrcBytes(Crc(c, 0)) && e[8..] == c;
    assert c[..8] == Little(r.sequence, 8) && c[12..] == Payload(r);
    assert data[..|e|] == e;
    assert data[8..16] == c[..8] && data[16] == c[8] && data[17] == c[9];
    assert data[18..20] == [c[10], c[11]];
    assert data[HEADER_SIZE..|e|] == c[12..];
  }

  /** Bytes with the layout of a record are the record. */
  lemma LaidOut(r: Record, data: seq<U8>)
    requires Storable(r)
    requires var total := HEADER_SIZE + |Payload(r)|;
             && |data| >= total
             && data[..4] == Little(|Payload(r)|, 4) && data[4..8] == CrcBytes(Crc(data[8..total], 0))
             && data[8..16] == Little(r.sequence, 8)
             && data[16] == TypeCode(r.body) && data[17] == RECORD_VERSION && data[18..20] == [0, 0]
             && data[HEADER_SIZE..total] == Payload(r)
    ensures Encode(r) <= data && |Encode(r)| == HEADER_SIZE + |Payload(r)|
  {
    hide Payload, Crc, CrcBytes, Little, TypeCode;
    var total := HEADER_SIZE + |Payload(r)|;
    assert data[18] == data[18..20][0] && data[19] == data[18..20][1];
    assert data[8..total] == data[8..16] + [data[16], data[17], data[18], data[19]] + data[HEADER_SIZE..total];
    assert data[..total] == data[..4] + data[4..8] + data[8..total];
  }

  lemma ZeroPair(bytes: seq<U8>)
    requires |bytes| == 2
    ensures Value(bytes) == 0 <==> bytes == [0, 0]
  {
    assert bytes[1..] == [bytes[1]] && bytes[1..][1..] == [];
    assert Value(bytes) == bytes[0] + 256 * (bytes[1] + 256 * Value([]));
  }

  /** Decoding undoes encoding, and nothing else decodes: a byte string decodes as a record
      exactly when the encoding of that record is at its front. */
  lemma DecodeExact(data: seq<U8>, r: Record, n: nat)
    ensures Decode(data) == Ok(r, n) <==> Storable(r) && n == |Encode(r)| && Encode(r) <= data
  {
    hide DecodePayload, Payload, Crc, CrcBytes, Little, Value, TypeCode;
    Powers();
    if Decode(data) == Ok(r, n) {
      var length := Value(data[..4]);
      var total := HEADER_SIZE + length;
      LittleValue(data[..4]);
      LittleValue(data[8..16]);
      ZeroPair(data[18..20]);
      DecodePayloadExact(data[16], Value(data[8..16]), data[HEADER_SIZE..total], r);
      LaidOut(r, data);
    }
    if Storable(r) && n == |Encode(r)| && Encode(r) <= data {
      PayloadBound(r);
      Layout(r, data);
      ZeroPair(data[18..20]);
      ValueLittle(|Payload(r)|, 4);
      ValueLittle(r.sequence, 8);
      KnownCode(r.body);
      DecodePayloadExact(data[16], r.sequence, Payload(r), r);
    }
  }

  lemma KnownCode(b: Body)
    ensures KnownType(TypeCode(b))
  {
  }

  /** A header is refused for its version, its type, its reserved bytes or a length above 2^20, before
      anything is made of the rest; a good one waits for as many bytes as it announces. */
  lemma HeaderFirst(data: seq<U8>)
    requires |data| >= 20
    ensures var length := Value(data[..4]);
            var good := data[17] == 2 && 1 <= data[16] <= 4 && data[18] == 0 == data[19] && length <= 0x10_0000;
            && (!good ==> Decode(data) == Unreadable)
            && (good ==> (Decode(data) == Incomplete <==> |data| < 20 + length))
  {
    hide DecodePayload, Crc, CrcBytes, Value;
    ZeroPair(data[18..20]);
    assert data[18..20] == [data[18], data[19]];
  }

  /** Cut anywhere, a record is merely incomplete. */
  lemma PrefixIncomplete(r: Record, k: nat)
    requires Storable(r) && k < |Encode(r)|
    ensures Decode(Encode(r)[..k]) == Incomplete
  {
    hide DecodePayload, Payload, Crc, CrcBytes, Little, Value, TypeCode;
    Powers();
    var e := Encode(r);
    var p := e[..k];
    if k >= HEADER_SIZE {
      PayloadBound(r);
      Layout(r, e);
      assert p[..4] == e[..4] && p[18..20] == e[18..20];
      ZeroPair(p[18..20]);
      ValueLittle(|Payload(r)|, 4);
      KnownCode(r.body);
    }
  }

  /** A verdict does not change when more bytes arrive, unless it was that bytes are missing. */
  lemma DecodeStable(data: seq<U8>, more: seq<U8>)
    requires Decode(data) != Incomplete
    ensures Decode(data + more) == Decode(data)
  {
    hide DecodePayload, Crc, CrcBytes, Value;
    var d := data + more;
    assert d[..4] == data[..4] && d[4..8] == data[4..8] && d[8..16] == data[8..16] && d[18..20] == data[18..20];
    if GoodHeader(data) {
      var total := HEADER_SIZE + Value(data[..4]);
      assert d[8..total] == data[8..total] && d[HEADER_SIZE..total] == data[HEADER_SIZE..total];
    }
  }

  /** Damage to up to four bytes in a row, from the sequence number on, never decodes as a record. */
  lemma DamageDetected(r: Record, at: nat, w: seq<U8>)
    requires Storable(r) && 8 <= at && at + |w| <= |Encode(r)| && |w| <= 4 && w != Encode(r)[at..at + |w|]
    ensures Decode(Encode(r)[..at] + w + Encode(r)[at + |w|..]) in {Corrupt, Unreadable}
  {
    hide DecodePayload, Payload, Little, Value, TypeCode, Crc, CrcBytes, CheckedPart, Storable;
    var e, n := Encode(r), |Encode(r)|;
    var d := e[..at] + w + e[at + |w|..];
    Powers();
    PayloadBound(r);
    Layout(r, e);
    ValueLittle(|Payload(r)|, 4);
    assert |d| == n && d[..4] == e[..4] && d[4..8] == e[4..8];
    var v := e[at..at + |w|];
    assert e[8..n] == e[8..at] + v + e[at + |w|..];
    assert d[8..n] == e[8..at] + w + e[at + |w|..];
    BurstDetected(e[8..at], v, w, e[at + |w|..], 0);
    if CrcBytes(Crc(d[8..n], 0)) == CrcBytes(Crc(e[8..n], 0)) {
      CrcBytesInjective(Crc(d[8..n], 0), Crc(e[8..n], 0));
    }
  }

  // ----- a listing as it is written, whatever the length of its symbol

  function ListingPayload(timestamp: I64, i: Instrument): seq<U8>
    requires InWords(i)
  {
    Written(ListingFields(timestamp, i), Kinds(1))
  }

  function ListingBytes(sequence: U64, timestamp: I64, i: Instrument): seq<U8>
    requires InWords(i)
  {
    var payload := ListingPayload(timestamp, i);
    var checked := Little(sequence, 8) + [1, RECORD_VERSION, 0, 0] + payload;
    Little(|payload|, 4) + CrcBytes(Crc(checked, 0)) + checked
  }

  /** One text among words: what the fields take beside it is the same for all of them. */
  lemma {:induction false} BesideText(fs: seq<Field>, gs: seq<Field>, ks: seq<Kind>, t: int)
    requires Matching(fs, ks) && Matching(gs, ks) && -1 <= t < |ks|
    requires forall k :: 0 <= k < |ks| ==> (ks[k].Text? <==> k == t) && (ks[k].Fixed? ==> ks[k].width <= 8)
    ensures var f, g := if t >= 0 then |fs[t].text| else 0, if t >= 0 then |gs[t].text| else 0;
            |Written(fs, ks)| - f == |Written(gs, ks)| - g && f <= |Written(fs, ks)| <= f + 8 * |ks|
  {
    if ks != [] {
      BesideText(fs[1..], gs[1..], ks[1..], if t <= 0 then -1 else t - 1);
      assert t > 0 ==> fs[1..][t - 1] == fs[t] && gs[1..][t - 1] == gs[t];
    }
  }

  /** A payload with a symbol too long for its length field does not decode as anything. */
  lemma LongSymbolPayload(timestamp: I64, i: Instrument, sequence: nat)
    requires InWords(i) && |i.symbol| >= 0x1_0000
    ensures DecodePayload(1, sequence, ListingPayload(timestamp, i)) == None
  {
    hide ReadBack, Written, FromFields;
    var payload, fs := ListingPayload(timestamp, i), ListingFields(timestamp, i);
    if DecodePayload(1, sequence, payload).Some? {
      var (gs, n) := ReadBack(Kinds(1), payload).value;
      ReadBackExact(Kinds(1), payload, gs, n);
      FitsMatching(gs, Kinds(1));
      BesideText(fs, gs, Kinds(1), 2);
    }
  }

  /** A listing is read back exactly if its symbol is shorter than 65536 bytes.  The venue accepts
      and records longer ones too, and then nothing from that record on can be read. */
  lemma ListedExactly(sequence: U64, timestamp: I64, i: Instrument, more: seq<U8>)
    requires InWords(i) && |i.symbol| < 0xFFFF_FF00
    ensures var bytes := ListingBytes(sequence, timestamp, i);
            Decode(bytes + more) == if |i.symbol| < 0x1_0000 then Ok(Record(sequence, timestamp, InstrumentDefined(i)),
                                                                     |bytes|)
                                    else Unreadable
  {
    hide DecodePayload, Crc, CrcBytes, Little, Value, Written, ReadBack;
    var bytes, payload := ListingBytes(sequence, timestamp, i), ListingPayload(timestamp, i);
    if |i.symbol| < 0x1_0000 {
      var r := Record(sequence, timestamp, InstrumentDefined(i));
      assert Payload(r) == payload && Encode(r) == bytes;
      DecodeExact(bytes + more, r, |bytes|);
    } else {
      Powers();
      var fs := ListingFields(timestamp, i);
      BesideText(fs, fs, Kinds(1), 2);
      ListingLayout(sequence, timestamp, i, bytes + more);
      ValueLittle(|payload|, 4);
      ValueLittle(sequence, 8);
      LongSymbolPayload(timestamp, i, sequence);
    }
  }

  lemma ListingLayout(sequence: U64, timestamp: I64, i: Instrument, data: seq<U8>)
    requires InWords(i) && ListingBytes(sequence, timestamp, i) <= data
    ensures var payload := ListingPayload(timestamp, i);
            var total := HEADER_SIZE + |payload|;
            && |data| >= total && data[..4] == Little(|payload|, 4)
            && data[4..8] == CrcBytes(Crc(data[8..total], 0)) && data[8..16] == Little(sequence, 8)
            && data[16] == 1 && data[17] == RECORD_VERSION && data[HEADER_SIZE..total] == payload
  {
    hide ListingPayload, Crc, CrcBytes, Little;
    var e, payload := ListingBytes(sequence, timestamp, i), ListingPayload(timestamp, i);
    var c := Little(sequence, 8) + [1, RECORD_VERSION, 0, 0] + payload;
    assert e[..4] == Little(|payload|, 4) && e[4..8] == CrcBytes(Crc(c, 0)) && e[8..] == c;
    assert c[..8] == Little(sequence, 8) && c[12..] == payload;
    assert data[..|e|] == e;
    assert data[8..16] == c[..8] && data[16] == c[8] && data[17] == c[9];
    assert data[8..|e|] == c && data[HEADER_SIZE..|e|] == c[12..];
  }

  // ----- the encoder and the decoder as they run

  /** Fields added three at a time. */
  lemma InThree<T>(s: seq<T>, a: seq<T>, b: seq<T>, c: seq<T>)
    ensures s + a + b + c == s + (a + b + c)
  {
  }

  lemma InstrumentLayout(i: Instrument)
    requires StorableInstrument(i)
    ensures Fields(Record(0, 0, InstrumentDefined(i)))[1..] ==
            [Num(i.id), Str(i.symbol), Num(Unsigned(i.tickSize))]
            + [Num(i.lotSize), Num(i.minQuantity), Num(Unsigned(i.minPrice))]
            + [Num(Unsigned(i.maxPrice)), Num(i.displayExponent), Num(PolicyCode(i.selfTradePolicy))]
    ensures Kinds(1)[1..] == [WORD, Text, WORD] + [WORD, WORD, WORD] + [WORD, Fixed(1), Bounded(4)]
  {
  }

  lemma NewOrderLayout(o: NewOrder)
    ensures Fields(Record(0, 0, NewOrderEntered(o)))[1..] ==
            [Num(o.id), Num(o.account), Num(o.instrument)]
            + [Num(SideCode(o.side)), Num(KindCode(o.kind)), Num(TifCode(o.tif))]
            + [Num(FlagCode(o.postOnly)), Num(Unsigned(o.price)), Num(o.quantity)]
    ensures Kinds(2)[1..] == [WORD, WORD, WORD] + [Bounded(1), Bounded(1), Bounded(3)] + [Bounded(1), WORD, WORD]
  {
  }

  method PutInstrument(i: Instrument, writer: ByteWriter)
    requires StorableInstrument(i) && writer.Valid()
    modifies writer
    ensures writer.Valid() && writer.kinds == old(writer.kinds) + Kinds(1)[1..]
    ensures writer.fields == old(writer.fields) + Fields(Record(0, 0, InstrumentDefined(i)))[1..]
  {
    hide ByteWriter.Valid, Written, Matching, Fields, Kinds;
    ghost var fs, ks := writer.fields, writer.kinds;
    writer.Put(i.id, 8);
    writer.PutText(i.symbol);
    writer.PutSigned(i.tickSize);
    ghost var f1, k1 := [Num(i.id), Str(i.symbol), Num(Unsigned(i.tickSize))], [WORD, Text, WORD];
    assert writer.fields == fs + f1 && writer.kinds == ks + k1;
    fs, ks := writer.fields, writer.kinds;
    writer.Put(i.lotSize, 8);
    writer.Put(i.minQuantity, 8);
    writer.PutSigned(i.minPrice);
    ghost var f2, k2 := [Num(i.lotSize), Num(i.minQuantity), Num(Unsigned(i.minPrice))], [WORD, WORD, WORD];
    assert writer.fields == fs + f2 && writer.kinds == ks + k2;
    fs, ks := writer.fields, writer.kinds;
    writer.PutSigned(i.maxPrice);
    writer.PutByte(i.displayExponent, Fixed(1));
    writer.PutByte(PolicyCode(i.selfTradePolicy), Bounded(4));
    ghost var f3 := [Num(Unsigned(i.maxPrice)), Num(i.displayExponent), Num(PolicyCode(i.selfTradePolicy))];
    ghost var k3 := [WORD, Fixed(1), Bounded(4)];
    assert writer.fields == fs + f3 && writer.kinds == ks + k3;
    InThree(old(writer.fields), f1, f2, f3);
    InThree(old(writer.kinds), k1, k2, k3);
    InstrumentLayout(i);
  }

  method PutNewOrder(o: NewOrder, writer: ByteWriter)
    requires writer.Valid()
    modifies writer
    ensures writer.Valid() && writer.kinds == old(writer.kinds) + Kinds(2)[1..]
    ensures writer.fields == old(writer.fields) + Fields(Record(0, 0, NewOrderEntered(o)))[1..]
  {
    hide ByteWriter.Valid, Written, Matching, Fields, Kinds;
    ghost var fs, ks := writer.fields, writer.kinds;
    writer.Put(o.id, 8);
    writer.Put(o.account, 8);
    writer.Put(o.instrument, 8);
    ghost var f1, k1 := [Num(o.id), Num(o.account), Num(o.instrument)], [WORD, WORD, WORD];
    assert writer.fields == fs + f1 && writer.kinds == ks + k1;
    fs, ks := writer.fields, writer.kinds;
    writer.PutByte(SideCode(o.side), Bounded(1));
    writer.PutByte(KindCode(o.kind), Bounded(1));
    writer.PutByte(TifCode(o.tif), Bounded(3));
    ghost var f2, k2 := [Num(SideCode(o.side)), Num(KindCode(o.kind)), Num(TifCode(o.tif))],
        [Bounded(1), Bounded(1), Bounded(3)];
    assert writer.fields == fs + f2 && writer.kinds == ks + k2;
    fs, ks := writer.fields, writer.kinds;
    writer.PutByte(FlagCode(o.postOnly), Bounded(1));
    writer.PutSigned(o.price);
    writer.Put(o.quantity, 8);
    ghost var f3, k3 := [Num(FlagCode(o.postOnly)), Num(Unsigned(o.price)), Num(o.quantity)], [Bounded(1), WORD, WORD];
    assert writer.fields == fs + f3 && writer.kinds == ks + k3;
    InThree(old(writer.fields), f1, f2, f3);
    InThree(old(writer.kinds), k1, k2, k3);
    NewOrderLayout(o);
  }

  method PutCancel(c: CancelOrder, writer: ByteWriter)
    requires writer.Valid()
    modifies writer
    ensures writer.Valid() && writer.kinds == old(writer.kinds) + Kinds(3)[1..]
    ensures writer.fields == old(writer.fields) + Fields(Record(0, 0, OrderCancelled(c)))[1..]
  {
    hide ByteWriter.Valid, Written, Matching;
    writer.Put(c.id, 8);
    writer.Put(c.account, 8);
    writer.Put(c.instrument, 8);
  }

  method PutReplace(c: ReplaceOrder, writer: ByteWriter)
    requires writer.Valid()
    modifies writer
    ensures writer.Valid() && writer.kinds == old(writer.kinds) + Kinds(4)[1..]
    ensures writer.fields == old(writer.fields) + Fields(Record(0, 0, OrderReplaced(c)))[1..]
  {
    hide ByteWriter.Valid, Written, Matching;
    writer.Put(c.id, 8);
    writer.Put(c.account, 8);
    writer.Put(c.instrument, 8);
    writer.PutSigned(c.newPrice);
    writer.Put(c.newQuantity, 8);
  }

  lemma KindsFirst(code: nat)
    requires KnownType(code)
    ensures Kinds(code) == [WORD] + Kinds(code)[1..]
  {
    assert Kinds(code)[0] == WORD;
  }

  lemma FieldsAlike(r: Record)
    requires Storable(r)
    ensures var f, g := Fields(r), Fields(Record(0, 0, r.body));
            0 < |f| == |g| && f[0] == Num(Unsigned(r.timestamp)) && forall j :: 0 < j < |f| ==> f[j] == g[j]
  {
  }

  /** Only the timestamp in front depends on more than the body. */
  lemma TimestampFirst(r: Record)
    requires Storable(r)
    ensures Fields(r) == [Num(Unsigned(r.timestamp))] + Fields(Record(0, 0, r.body))[1..]
    ensures Kinds(TypeCode(r.body)) == [WORD] + Kinds(TypeCode(r.body))[1..]
  {
    hide Kinds, Fields;
    KindsFirst(TypeCode(r.body));
    FieldsAlike(r);
  }

  method EncodePayload(r: Record, writer: ByteWriter)
    requires Storable(r) && writer.Valid() && writer.fields == [] && writer.kinds == []
    modifies writer
    ensures writer.out == writer.start + Payload(r)
  {
    hide Written, Matching, Fields, Kinds, StorableInstrument;
    TimestampFirst(r);
    writer.PutSigned(r.timestamp);
    match r.body {
      case InstrumentDefined(i) => PutInstrument(i, writer);
      case NewOrderEntered(o) => PutNewOrder(o, writer);
      case OrderCancelled(c) => PutCancel(c, writer);
      case OrderReplaced(c) => PutReplace(c, writer);
    }
    assert writer.fields == Fields(r) && writer.kinds == Kinds(TypeCode(r.body));
  }

  /** Writes a number over bytes already there. */
  method Store(buffer: seq<U8>, at: nat, value: nat, width: nat) returns (patched: seq<U8>)
    requires at + width <= |buffer|
    ensures patched == buffer[..at] + Little(value, width) + buffer[at + width..]
  {
    patched := buffer;
    assert buffer == buffer[..at] + Little(value, 0) + buffer[at..];
    for i := 0 to width
      invariant patched == buffer[..at] + Little(value, i) + buffer[at + i..]
    {
      LittleNext(value, i);
      patched := patched[at + i := value / Power256(i) % 256];
    }
  }

  /** Appends the record: room for the header first, then the payload, then the header
      written back over the room that was left. */
  method EncodeInto(table: seq<bv32>, r: Record, out: seq<U8>) returns (result: seq<U8>)
    requires IsTable(table) && Storable(r)
    ensures result == out + Encode(r)
  {
    hide ByteWriter.Valid, Payload, Crc, CrcBytes, Little, TypeCode, IsTable, Value, Storable;
    var start := |out|;
    var writer := new ByteWriter(out + Zeros());
    EncodePayload(r, writer);
    var p := |writer.out| - start - HEADER_SIZE;
    ghost var payload := Payload(r);
    var h := writer.out[start..];
    assert h == Zeros() + payload;
    h := Store(h, 0, p, 4);
    assert h[20..] == payload;
    h := Store(h, 8, r.sequence, 8);
    assert h[20..] == payload;
    h := h[16 := TypeCode(r.body)][17 := RECORD_VERSION][18 := 0][19 := 0];
    assert h[20..] == payload;
    assert h[8..] == CheckedPart(r);
    var crc := Checksum(table, h[8..], 0);
    LittleValue(CrcBytes(crc));
    h := Store(h, 4, Value(CrcBytes(crc)), 4);
    assert h == Encode(r);
    result := out + h;
  }

  function Zeros(): (z: seq<U8>)
    ensures |z| == HEADER_SIZE
  {
    seq(HEADER_SIZE, i => 0)
  }

  method TakeWord(reader: ByteReader) returns (value: U64)
    requires reader.Valid()
    modifies reader
    ensures reader.Valid() && reader.kinds == old(reader.kinds) + [WORD] && (old(reader.failed) ==> reader.failed)
    ensures !reader.failed ==> reader.fields == old(reader.fields) + [Num(value)]
  {
    hide ReadBack;
    Powers();
    value := reader.Take(8);
  }

  method TakeSigned(reader: ByteReader) returns (value: I64)
    requires reader.Valid()
    modifies reader
    ensures reader.Valid() && reader.kinds == old(reader.kinds) + [WORD] && (old(reader.failed) ==> reader.failed)
    ensures !reader.failed ==> reader.fields == old(reader.fields) + [Num(Unsigned(value))]
  {
    hide ReadBack;
    var n := TakeWord(reader);
    value := Signed(n);
  }

  method TakeInstrument(reader: ByteReader) returns (i: Instrument)
    requires reader.Valid()
    modifies reader
    ensures reader.Valid() && reader.kinds == old(reader.kinds) + Kinds(1)[1..]
            && (old(reader.failed) ==> reader.failed)
    ensures StorableInstrument(i)
    ensures !reader.failed ==> reader.fields == old(reader.fields) + Fields(Record(0, 0, InstrumentDefined(i)))[1..]
  {
    hide ByteReader.Valid, ReadBack, Fields, Kinds;
    Powers();
    ghost var fs, ks := reader.fields, reader.kinds;
    var id := TakeWord(reader);
    var symbol := reader.TakeText();
    var tick := TakeSigned(reader);
    ghost var f1, k1 := [Num(id), Str(symbol), Num(Unsigned(tick))], [WORD, Text, WORD];
    assert (!reader.failed ==> reader.fields == fs + f1) && reader.kinds == ks + k1;
    fs, ks := reader.fields, reader.kinds;
    var lot := TakeWord(reader);
    var minQuantity := TakeWord(reader);
    var minPrice := TakeSigned(reader);
    ghost var f2, k2 := [Num(lot), Num(minQuantity), Num(Unsigned(minPrice))], [WORD, WORD, WORD];
    assert (!reader.failed ==> reader.fields == fs + f2) && reader.kinds == ks + k2;
    fs, ks := reader.fields, reader.kinds;
    var maxPrice := TakeSigned(reader);
    var exponent := reader.Take(1);
    var policy := reader.Enumeration(4);
    ghost var f3, k3 := [Num(Unsigned(maxPrice)), Num(exponent), Num(policy)], [WORD, Fixed(1), Bounded(4)];
    assert (!reader.failed ==> reader.fields == fs + f3) && reader.kinds == ks + k3;
    i := Instrument(id, symbol, tick, lot, minQuantity, minPrice, maxPrice, exponent, PolicyOf(policy));
    assert PolicyCode(PolicyOf(policy)) == policy;
    InThree(old(reader.fields), f1, f2, f3);
    InThree(old(reader.kinds), k1, k2, k3);
    InstrumentLayout(i);
  }

  lemma CodesBack(side: nat, kind: nat, tif: nat, flag: nat)
    requires side <= 1 && kind <= 1 && tif <= 3 && flag <= 1
    ensures SideCode(SideOf(side)) == side && KindCode(KindOf(kind)) == kind && TifCode(TifOf(tif)) == tif
    ensures FlagCode(flag == 1) == flag
  {
  }

  method TakeIds(reader: ByteReader) returns (id: U64, account: U64, instrument: U64)
    requires reader.Valid()
    modifies reader
    ensures reader.Valid() && reader.kinds == old(reader.kinds) + [WORD, WORD, WORD]
            && (old(reader.failed) ==> reader.failed)
    ensures !reader.failed ==> reader.fields == old(reader.fields) + [Num(id), Num(account), Num(instrument)]
  {
    hide ByteReader.Valid, ReadBack;
    id := TakeWord(reader);
    account := TakeWord(reader);
    instrument := TakeWord(reader);
  }

  method TakeNewOrder(reader: ByteReader) returns (o: NewOrder)
    requires reader.Valid()
    modifies reader
    ensures reader.Valid() && reader.kinds == old(reader.kinds) + Kinds(2)[1..]
            && (old(reader.failed) ==> reader.failed)
    ensures !reader.failed ==> reader.fields == old(reader.fields) + Fields(Record(0, 0, NewOrderEntered(o)))[1..]
  {
    hide ByteReader.Valid, ReadBack, Fields, Kinds, SideCode, SideOf, KindCode, KindOf, TifCode, TifOf, FlagCode;
    ghost var fs, ks := reader.fields, reader.kinds;
    var id, account, instrument := TakeIds(reader);
    ghost var f1, k1 := [Num(id), Num(account), Num(instrument)], [WORD, WORD, WORD];
    assert (!reader.failed ==> reader.fields == fs + f1) && reader.kinds == ks + k1;
    fs, ks := reader.fields, reader.kinds;
    var side := reader.Enumeration(1);
    var kind := reader.Enumeration(1);
    var tif := reader.Enumeration(3);
    ghost var f2, k2 := [Num(side), Num(kind), Num(tif)], [Bounded(1), Bounded(1), Bounded(3)];
    assert (!reader.failed ==> reader.fields == fs + f2) && reader.kinds == ks + k2;
    fs, ks := reader.fields, reader.kinds;
    var postOnly := reader.Enumeration(1);
    var price := TakeSigned(reader);
    var quantity := TakeWord(reader);
    ghost var f3, k3 := [Num(postOnly), Num(Unsigned(price)), Num(quantity)], [Bounded(1), WORD, WORD];
    assert (!reader.failed ==> reader.fields == fs + f3) && reader.kinds == ks + k3;
    o := NewOrder(id, account, instrument, SideOf(side), KindOf(kind), TifOf(tif), price, quantity, postOnly == 1);
    CodesBack(side, kind, tif, postOnly);
    InThree(old(reader.fields), f1, f2, f3);
    InThree(old(reader.kinds), k1, k2, k3);
    NewOrderLayout(o);
  }

  method TakeCancel(reader: ByteReader) returns (c: CancelOrder)
    requires reader.Valid()
    modifies reader
    ensures reader.Valid() && reader.kinds == old(reader.kinds) + Kinds(3)[1..]
            && (old(reader.failed) ==> reader.failed)
    ensures !reader.failed ==> reader.fields == old(reader.fields) + Fields(Record(0, 0, OrderCancelled(c)))[1..]
  {
    hide ByteReader.Valid, ReadBack;
    var id, account, instrument := TakeIds(reader);
    c := CancelOrder(id, account, instrument);
  }

  method TakeReplace(reader: ByteReader) returns (c: ReplaceOrder)
    requires reader.Valid()
    modifies reader
    ensures reader.Valid() && reader.kinds == old(reader.kinds) + Kinds(4)[1..]
            && (old(reader.failed) ==> reader.failed)
    ensures !reader.failed ==> reader.fields == old(reader.fields) + Fields(Record(0, 0, OrderReplaced(c)))[1..]
  {
    hide ByteReader.Valid, ReadBack;
    var id, account, instrument := TakeIds(reader);
    var price := TakeSigned(reader);
    var quantity := TakeWord(reader);
    c := ReplaceOrder(id, account, instrument, price, quantity);
  }

  /** A straight run of reads with one check at the end. */
  method ReadPayload(code: nat, sequence: U64, payload: seq<U8>) returns (r: Option<Record>)
    requires KnownType(code)
    ensures r == DecodePayload(code, sequence, payload)
  {
    hide ReadBack, Fields, Kinds, FromFields, StorableInstrument;
    var reader := new ByteReader(payload);
    var timestamp := TakeSigned(reader);
    var body;
    if code == 1 {
      var i := TakeInstrument(reader);
      body := InstrumentDefined(i);
    } else if code == 2 {
      var o := TakeNewOrder(reader);
      body := NewOrderEntered(o);
    } else if code == 3 {
      var c := TakeCancel(reader);
      body := OrderCancelled(c);
    } else {
      var c := TakeReplace(reader);
      body := OrderReplaced(c);
    }
    var record := Record(sequence, timestamp, body);
    TimestampFirst(record);
    assert reader.kinds == Kinds(code);
    if reader.FullyConsumed() {
      assert reader.fields == Fields(record);
      FromToFields(record);
      r := Some(record);
    } else {
      r := None;
    }
  }

  /** The decoder: bounds before trust, checksum before meaning. */
  method DecodeFrom(table: seq<bv32>, data: seq<U8>) returns (result: Decoded)
    requires IsTable(table)
    ensures result == Decode(data)
  {
    hide ReadBack, DecodePayload, Crc, CrcBytes, IsTable, Value;
    if |data| < HEADER_SIZE {
      return Incomplete;
    }
    var header := new ByteReader(data[..HEADER_SIZE]);
    Powers();
    var length := header.Take(4);
    var checksum := header.Take(4);
    var sequence := TakeWord(header);
    var code := header.Take(1);
    var version := header.Take(1);
    var reserved := header.Take(2);
    HeaderReads(data);
    assert header.kinds == [Fixed(4), Fixed(4), WORD, Fixed(1), Fixed(1), Fixed(2)];
    assert !header.failed && header.fields ==
           [Num(length), Num(checksum), Num(sequence), Num(code), Num(version), Num(reserved)];
    if version != RECORD_VERSION || !KnownType(code) || reserved != 0 || length > MAX_PAYLOAD {
      return Unreadable;
    }
    var total := HEADER_SIZE + length;
    if |data| < total {
      return Incomplete;
    }
    var computed := Checksum(table, data[8..total], 0);
    LittleValue(CrcBytes(computed));
    LittleValue(data[4..8]);
    if Value(CrcBytes(computed)) != checksum {
      return Corrupt;
    }
    var r := ReadPayload(code, sequence, data[HEADER_SIZE..total]);
    if r.None? {
      return Unreadable;
    }
    return Ok(r.value, total);
  }

  /** The header is all fixed-width, so reading it from enough bytes cannot fail. */
  lemma HeaderReads(data: seq<U8>)
    requires |data| >= HEADER_SIZE
    ensures ReadBack([Fixed(4), Fixed(4), WORD, Fixed(1), Fixed(1), Fixed(2)], data[..HEADER_SIZE]) ==
            Some(([Num(Value(data[..4])), Num(Value(data[4..8])), Num(Value(data[8..16])), Num(data[16]), Num(data[17]),
                   Num(Value(data[18..20]))], HEADER_SIZE))
  {
    hide Value, ReadBack;
    var h := data[..HEADER_SIZE];
    ReadNothing(h);
    ReadBackNext([], Fixed(4), h);
    assert h[0..][..4] == data[..4];
    var k1, f1 := [Fixed(4)], [Num(Value(data[..4]))];
    assert [] + [Fixed(4)] == k1 && [] + f1 == f1;
    assert ReadBack(k1, h) == Some((f1, 4));
    ReadBackNext(k1, Fixed(4), h);
    assert h[4..][..4] == data[4..8];
    var k2, f2 := k1 + [Fixed(4)], f1 + [Num(Value(data[4..8]))];
    assert ReadBack(k2, h) == Some((f2, 8));
    ReadBackNext(k2, WORD, h);
    assert h[8..][..8] == data[8..16];
    var k3, f3 := k2 + [WORD], f2 + [Num(Value(data[8..16]))];
    assert ReadBack(k3, h) == Some((f3, 16));
    ReadBackNext(k3, Fixed(1), h);
    assert h[16..][..1] == [data[16]];
    SingleValue(data[16]);
    var k4, f4 := k3 + [Fixed(1)], f3 + [Num(data[16])];
    assert ReadBack(k4, h) == Some((f4, 17));
    ReadBackNext(k4, Fixed(1), h);
    assert h[17..][..1] == [data[17]];
    SingleValue(data[17]);
    var k5, f5 := k4 + [Fixed(1)], f4 + [Num(data[17])];
    assert ReadBack(k5, h) == Some((f5, 18));
    ReadBackNext(k5, Fixed(2), h);
    assert h[18..][..2] == data[18..20];
    assert k5 + [Fixed(2)] == [Fixed(4), Fixed(4), WORD, Fixed(1), Fixed(1), Fixed(2)];
    assert f5 + [Num(Value(data[18..20]))] ==
           [Num(Value(data[..4])), Num(Value(data[4..8])), Num(Value(data[8..16])), Num(data[16]), Num(data[17]),
            Num(Value(data[18..20]))];
  }

  lemma ReadNothing(data: seq<U8>)
    ensures ReadBack([], data) == Some(([], 0))
  {
  }

  lemma SingleValue(b: U8)
    ensures Value([b]) == b
  {
    assert [b][1..] == [];
  }
}
