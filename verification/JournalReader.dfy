/** Reading a journal back, from bytes that may stop or go bad anywhere. */
module JournalReader {
  import opened Types
  import opened ByteCodec
  import opened Crc32c
  import opened JournalRecord

  datatype Outcome = Clean | TornTail | Damaged | SequenceGap

  /** What reading found: how it ended, the records delivered, and the bytes they took. */
  datatype Recovery = Recovery(outcome: Outcome, records: seq<Record>, good: nat)

  lemma ConsumedBound(data: seq<U8>)
    ensures var d := Decode(data); d.Ok? ==> HEADER_SIZE <= d.consumed <= |data|
  {
    hide DecodePayload, Crc, CrcBytes;
  }

  /** One segment, from the record numbered `expected`. */
  function ReadSegment(bytes: seq<U8>, expected: nat): Recovery
    decreases |bytes|
  {
    if bytes == [] then Recovery(Clean, [], 0)
    else match Decode(bytes)
      case Incomplete => Recovery(TornTail, [], 0)
      case Corrupt => Recovery(Damaged, [], 0)
      case Unreadable => Recovery(Damaged, [], 0)
      case Ok(r, n) =>
        if r.sequence != expected then Recovery(SequenceGap, [], 0)
        else
          ConsumedBound(bytes);
          var rest := ReadSegment(bytes[n..], expected + 1);
          Recovery(rest.outcome, [r] + rest.records, n + rest.good)
  }

  /** A journal: its segments in order, up to the first that does not end well. */
  function ReadJournal(segments: seq<seq<U8>>, expected: nat): Recovery {
    if segments == [] then Recovery(Clean, [], 0)
    else
      var first := ReadSegment(segments[0], expected);
      if first.outcome != Clean then first
      else
        var rest := ReadJournal(segments[1..], expected + |first.records|);
        Recovery(rest.outcome, first.records + rest.records, first.good + rest.good)
  }

  // ----- as it runs

  /** Reads on from `offset`, delivering records and stopping at the first bad one. */
  method ReadOn(table: seq<bv32>, bytes: seq<U8>, first: nat)
    returns (outcome: Outcome, records: seq<Record>, offset: nat)
    requires IsTable(table)
    ensures Recovery(outcome, records, offset) == ReadSegment(bytes, first)
  {
    hide Decode, IsTable, ReadSegment, Resumed;
    offset, records := 0, [];
    var expected: nat := first;
    assert bytes[0..] == bytes;
    ghost var goal := ReadSegment(bytes, first);
    ResumedNothing(goal);
    while offset < |bytes|
      invariant offset <= |bytes| && expected == first + |records|
      invariant goal == Resumed(records, offset, ReadSegment(bytes[offset..], expected))
      decreases |bytes| - offset
    {
      var decoded := DecodeFrom(table, bytes[offset..]);
      ConsumedBound(bytes[offset..]);
      ReadSegmentStep(bytes[offset..], expected);
      StoppedHere(records, offset, ReadSegment(bytes[offset..], expected));
      assert records + [] == records;
      if decoded.Ok? {
        if decoded.record.sequence != expected {
          return SequenceGap, records, offset;
        }
        assert bytes[offset..][decoded.consumed..] == bytes[offset + decoded.consumed..];
        ResumedTwice(records, offset, [decoded.record], decoded.consumed,
                     ReadSegment(bytes[offset + decoded.consumed..], expected + 1));
        expected := expected + 1;
        records := records + [decoded.record];
        offset := offset + decoded.consumed;
      } else if decoded.Incomplete? {
        return TornTail, records, offset;
      } else {
        return Damaged, records, offset;
      }
    }
    assert bytes[offset..] == [];
    ReadNothing(expected);
    ResumedAtEnd(records, offset);
    outcome := Clean;
  }

  method Read(table: seq<bv32>, segments: seq<seq<U8>>, first: nat)
    returns (outcome: Outcome, records: seq<Record>, bytesRecovered: nat, lastSequence: nat, damaged: nat, good: nat)
    requires IsTable(table)
    ensures Recovery(outcome, records, bytesRecovered) == ReadJournal(segments, first)
    ensures outcome != Clean ==>
              && damaged < |segments| && good <= |segments[damaged]|
              && ReadJournal(segments[..damaged] + [segments[damaged][..good]], first) ==
                 Recovery(Clean, records, bytesRecovered)
    ensures lastSequence == if records == [] then 0 else records[|records| - 1].sequence
  {
    hide ReadSegment, IsTable, ReadJournal, Resumed, AllStorable, Consecutive, EncodeAll;
    ReadNoSegments(first);
    ResumedNothing(ReadJournal(segments, first));
    outcome, records, bytesRecovered, lastSequence, damaged, good := Clean, [], 0, 0, 0, 0;
    var i := 0;
    assert segments[0..] == segments && segments[..0] == [];
    ghost var goal := ReadJournal(segments, first);
    while i < |segments|
      invariant i <= |segments| && outcome == Clean
      invariant ReadJournal(segments[..i], first) == Recovery(Clean, records, bytesRecovered)
      invariant goal == Resumed(records, bytesRecovered, ReadJournal(segments[i..], first + |records|))
      invariant lastSequence == if records == [] then 0 else records[|records| - 1].sequence
    {
      var more, offset;
      outcome, more, offset := ReadOn(table, segments[i], first + |records|);
      ReadJournalStep(segments, i, first + |records|);
      ghost var before, taken := records, bytesRecovered;
      StoppedHere(before, taken, ReadSegment(segments[i], first + |records|));
      records := records + more;
      bytesRecovered := bytesRecovered + offset;
      if more != [] {
        lastSequence := more[|more| - 1].sequence;
      }
      if outcome != Clean {
        damaged, good := i, offset;
        ReadSegmentSound(segments[i], first + |before|);
        ReadJournalLast(segments[..i], segments[i][..offset], first, before, taken);
        StoppedHere(before, taken, Recovery(Clean, more, offset));
        return;
      }
      ReadJournalLast(segments[..i], segments[i], first, before, taken);
      assert segments[..i] + [segments[i]] == segments[..i + 1];
      ResumedTwice(before, taken, more, offset, ReadJournal(segments[i + 1..], first + |records|));
      i := i + 1;
    }
    ReadJournalEnd(segments, first + |records|);
    ResumedAtEnd(records, bytesRecovered);
  }

  /** What was read before, and the rest. */
  function Resumed(records: seq<Record>, bytes: nat, rest: Recovery): Recovery {
    Recovery(rest.outcome, records + rest.records, bytes + rest.good)
  }

  lemma ReadNothing(expected: nat)
    ensures ReadSegment([], expected) == Recovery(Clean, [], 0)
  {
  }

  /** One record, and then the rest. */
  lemma ReadSegmentStep(bytes: seq<U8>, expected: nat)
    requires bytes != []
    ensures match Decode(bytes)
            case Incomplete => ReadSegment(bytes, expected) == Recovery(TornTail, [], 0)
            case Corrupt => ReadSegment(bytes, expected) == Recovery(Damaged, [], 0)
            case Unreadable => ReadSegment(bytes, expected) == Recovery(Damaged, [], 0)
            case Ok(r, n) =>
              if r.sequence != expected then ReadSegment(bytes, expected) == Recovery(SequenceGap, [], 0)
              else
                && n <= |bytes|
                && ReadSegment(bytes, expected) == Resumed([r], n, ReadSegment(bytes[n..], expected + 1))
  {
    hide Decode;
    ConsumedBound(bytes);
  }

  lemma ResumedNothing(r: Recovery)
    ensures Resumed([], 0, r) == r
  {
    assert [] + r.records == r.records;
  }

  lemma ResumedTwice(a: seq<Record>, x: nat, b: seq<Record>, y: nat, r: Recovery)
    ensures Resumed(a, x, Resumed(b, y, r)) == Resumed(a + b, x + y, r)
  {
    assert a + (b + r.records) == a + b + r.records;
  }

  lemma StoppedHere(a: seq<Record>, x: nat, r: Recovery)
    ensures Resumed(a, x, r) == Recovery(r.outcome, a + r.records, x + r.good)
  {
  }

  lemma ResumedAtEnd(a: seq<Record>, x: nat)
    ensures Resumed(a, x, Recovery(Clean, [], 0)) == Recovery(Clean, a, x)
  {
    assert a + [] == a;
  }

  lemma ReadJournalStep(segments: seq<seq<U8>>, i: nat, expected: nat)
    requires i < |segments|
    ensures var head := ReadSegment(segments[i], expected);
            ReadJournal(segments[i..], expected) ==
              if head.outcome != Clean then head
              else Resumed(head.records, head.good, ReadJournal(segments[i + 1..], expected + |head.records|))
  {
    hide ReadSegment;
    assert segments[i..][0] == segments[i] && segments[i..][1..] == segments[i + 1..];
  }

  lemma ReadNoSegments(expected: nat)
    ensures ReadJournal([], expected) == Recovery(Clean, [], 0)
  {
  }

  /** What follows segments that end well is read on from where they stopped; what follows others is
      not read at all. */
  lemma {:induction false} ReadJournalConcat(a: seq<seq<U8>>, b: seq<seq<U8>>, expected: nat)
    ensures var before := ReadJournal(a, expected);
            ReadJournal(a + b, expected) ==
              if before.outcome != Clean then before
              else Resumed(before.records, before.good, ReadJournal(b, expected + |before.records|))
    decreases a
  {
    hide ReadSegment, ReadJournal, Resumed;
    ReadNoSegments(expected);
    if a == [] {
      assert a + b == b;
      ResumedNothing(ReadJournal(b, expected));
    } else {
      var head := ReadSegment(a[0], expected);
      var rest := ReadJournal(a[1..], expected + |head.records|);
      assert (a + b)[0] == a[0] && (a + b)[1..] == a[1..] + b;
      ReadJournalFront(a, expected);
      ReadJournalFront(a + b, expected);
      StoppedHere(head.records, head.good, rest);
      ReadJournalConcat(a[1..], b, expected + |head.records|);
      ResumedTwice(head.records, head.good, rest.records, rest.good,
                   ReadJournal(b, expected + |head.records| + |rest.records|));
    }
  }

  /** One more segment after segments that end well is read on from where they stopped. */
  lemma ReadJournalLast(segments: seq<seq<U8>>, last: seq<U8>, expected: nat, records: seq<Record>, bytes: nat)
    requires ReadJournal(segments, expected) == Recovery(Clean, records, bytes)
    ensures ReadJournal(segments + [last], expected) == Resumed(records, bytes, ReadSegment(last, expected + |records|))
  {
    hide ReadSegment, ReadJournal, Resumed;
    ReadJournalConcat(segments, [last], expected);
    ReadJournalOne(last, expected + |records|);
  }

  /** The first segment, and then the rest if it ends well. */
  lemma ReadJournalFront(segments: seq<seq<U8>>, expected: nat)
    requires segments != []
    ensures var head := ReadSegment(segments[0], expected);
            ReadJournal(segments, expected) ==
              if head.outcome != Clean then head
              else Resumed(head.records, head.good, ReadJournal(segments[1..], expected + |head.records|))
  {
    hide ReadSegment;
  }

  lemma ReadJournalOne(last: seq<U8>, expected: nat)
    ensures ReadJournal([last], expected) == ReadSegment(last, expected)
  {
    hide ReadSegment;
    var r := ReadSegment(last, expected);
    assert [last][1..] == [] && r.records + [] == r.records;
  }

  lemma ReadJournalEnd(segments: seq<seq<U8>>, expected: nat)
    ensures ReadJournal(segments[|segments|..], expected) == Recovery(Clean, [], 0)
  {
  }

  // ----- what is delivered is what was written

  predicate Consecutive(rs: seq<Record>, first: nat) {
    forall i :: 0 <= i < |rs| ==> rs[i].sequence == first + i
  }

  predicate AllStorable(rs: seq<Record>) {
    forall i :: 0 <= i < |rs| ==> Storable(rs[i])
  }

  function EncodeAll(rs: seq<Record>): seq<U8>
    requires AllStorable(rs)
  {
    if rs == [] then [] else Encode(rs[0]) + EncodeAll(rs[1..])
  }

  /** Whatever the bytes: the records delivered are numbered without a gap, they are exactly
      what the good bytes encode, and the good bytes on their own read back clean. */
  lemma {:induction false} ReadSegmentSound(bytes: seq<U8>, expected: nat)
    ensures var r := ReadSegment(bytes, expected);
            && Consecutive(r.records, expected) && AllStorable(r.records)
            && r.good <= |bytes| && bytes[..r.good] == EncodeAll(r.records)
            && ReadSegment(bytes[..r.good], expected) == Recovery(Clean, r.records, r.good)
            && (r.outcome == Clean <==> r.good == |bytes|)
    decreases |bytes|
  {
    hide Decode, Encode, Storable, ReadSegment, Resumed;
    var r := ReadSegment(bytes, expected);
    ReadNothing(expected);
    assert bytes[..0] == [];
    if bytes != [] {
      ReadSegmentStep(bytes, expected);
      if Decode(bytes).Ok? && Decode(bytes).record.sequence == expected {
        var x, n := Decode(bytes).record, Decode(bytes).consumed;
        ConsumedBound(bytes);
        DecodeExact(bytes, x, n);
        ReadSegmentSound(bytes[n..], expected + 1);
        var rest := ReadSegment(bytes[n..], expected + 1);
        StoppedHere([x], n, rest);
        var front := bytes[..r.good];
        assert r.records[1..] == rest.records;
        assert front == bytes[..n] + bytes[n..][..rest.good];
        assert front[n..] == bytes[n..][..rest.good] && front[..n] == bytes[..n] == Encode(x);
        DecodeExact(front, x, n);
        ReadSegmentStep(front, expected);
        StoppedHere([x], n, ReadSegment(front[n..], expected + 1));
      }
    }
  }

  lemma {:induction false} EncodeAllFront(rs: seq<Record>, m: nat)
    requires AllStorable(rs) && m <= |rs|
    ensures EncodeAll(rs[..m]) <= EncodeAll(rs)
  {
    hide Encode, Storable;
    if m > 0 {
      EncodeAllFront(rs[1..], m - 1);
      assert rs[..m][1..] == rs[1..][..m - 1];
    }
  }

  /** Cut a well-formed journal anywhere and exactly the records wholly inside the cut come
      back: clean if the cut falls between records, torn otherwise, and never anything worse. */
  lemma {:induction false} CutSegment(rs: seq<Record>, first: nat, k: nat) returns (m: nat)
    requires AllStorable(rs) && Consecutive(rs, first) && k <= |EncodeAll(rs)|
    ensures m <= |rs| && |EncodeAll(rs[..m])| <= k && (m < |rs| ==> k < |EncodeAll(rs[..m + 1])|)
    ensures ReadSegment(EncodeAll(rs)[..k], first) ==
            Recovery(if k == |EncodeAll(rs[..m])| then Clean else TornTail, rs[..m], |EncodeAll(rs[..m])|)
  {
    hide Decode, Encode, EncodeAll, ReadSegment, Resumed, Storable;
    var cut := EncodeAll(rs)[..k];
    m := 0;
    EncodeAllNone(rs);
    assert rs == [] ==> rs[..0] == rs;
    ReadNothing(first);
    if k == 0 {
      if rs != [] {
        FirstEncoded(rs);
        EncodeAllStep(rs, 1);
      }
    } else {
      FirstEncoded(rs);
      var e := Encode(rs[0]);
      EncodeAllStep(rs, |rs|);
      EncodeAllStep(rs, 1);
      assert rs[..|rs|] == rs && rs[1..][..|rs| - 1] == rs[1..];
      ReadSegmentStep(cut, first);
      if k < |e| {
        assert cut == e[..k];
        PrefixIncomplete(rs[0], k);
      } else {
        var l := CutSegment(rs[1..], first + 1, k - |e|);
        m := l + 1;
        assert cut[..|e|] == e && cut[|e|..] == EncodeAll(rs[1..])[..k - |e|];
        DecodeExact(cut, rs[0], |e|);
        StoppedHere([rs[0]], |e|, ReadSegment(cut[|e|..], first + 1));
        EncodeAllStep(rs, m);
        assert rs[..m] == [rs[0]] + rs[1..][..l];
        if m < |rs| {
          EncodeAllStep(rs, m + 1);
        }
      }
    }
  }

  /** Well-formed records in front of anything are read first. */
  lemma {:induction false} ReadsOn(rs: seq<Record>, tail: seq<U8>, first: nat)
    requires AllStorable(rs) && Consecutive(rs, first)
    ensures ReadSegment(EncodeAll(rs) + tail, first) ==
            Resumed(rs, |EncodeAll(rs)|, ReadSegment(tail, first + |rs|))
  {
    hide Decode, Encode, ReadSegment, Resumed, Storable;
    if rs == [] {
      assert EncodeAll(rs) + tail == tail;
      ResumedNothing(ReadSegment(tail, first));
    } else {
      var e, rest := Encode(rs[0]), EncodeAll(rs[1..]) + tail;
      var bytes := EncodeAll(rs) + tail;
      FirstEncoded(rs);
      assert bytes == e + rest && bytes[..|e|] == e && bytes[|e|..] == rest;
      DecodeExact(bytes, rs[0], |e|);
      ReadSegmentStep(bytes, first);
      ReadsOn(rs[1..], tail, first + 1);
      ResumedTwice([rs[0]], |e|, rs[1..], |EncodeAll(rs[1..])|, ReadSegment(tail, first + |rs|));
      assert [rs[0]] + rs[1..] == rs;
    }
  }

  /** Damage to up to four bytes in a row of a record, from its number on, stops the reading there:
      what comes before is delivered, and the journal is reported damaged, not torn. */
  lemma DamageStops(before: seq<Record>, r: Record, at: nat, w: seq<U8>, more: seq<U8>, first: nat)
    requires AllStorable(before) && Consecutive(before, first) && Storable(r)
    requires 8 <= at && at + |w| <= |Encode(r)| && |w| <= 4 && w != Encode(r)[at..at + |w|]
    ensures var damaged := Encode(r)[..at] + w + Encode(r)[at + |w|..];
            ReadSegment(EncodeAll(before) + damaged + more, first) ==
            Recovery(Damaged, before, |EncodeAll(before)|)
  {
    hide Decode, Encode, EncodeAll, ReadSegment, Resumed, Storable;
    var damaged := Encode(r)[..at] + w + Encode(r)[at + |w|..];
    DamageDetected(r, at, w);
    DecodeStable(damaged, more);
    ReadSegmentStep(damaged + more, first + |before|);
    assert EncodeAll(before) + damaged + more == EncodeAll(before) + (damaged + more);
    ReadsOn(before, damaged + more, first);
    StoppedHere(before, |EncodeAll(before)|, ReadSegment(damaged + more, first + |before|));
    assert before + [] == before;
  }

  lemma EncodeAllNone(rs: seq<Record>)
    ensures AllStorable(rs[..0]) && EncodeAll(rs[..0]) == [] && rs[..0] == []
  {
  }

  lemma EncodeAllStep(rs: seq<Record>, m: nat)
    requires AllStorable(rs) && 1 <= m <= |rs|
    ensures EncodeAll(rs[..m]) == Encode(rs[0]) + EncodeAll(rs[1..][..m - 1])
  {
    hide Encode, Storable;
    assert rs[..m][1..] == rs[1..][..m - 1];
  }

  lemma FirstEncoded(rs: seq<Record>)
    requires AllStorable(rs) && rs != []
    ensures Storable(rs[0]) && AllStorable(rs[1..]) && |Encode(rs[0])| >= HEADER_SIZE
    ensures Encode(rs[0]) <= EncodeAll(rs)
  {
    hide Payload, Little, CrcBytes, Crc;
    Layout(rs[0], Encode(rs[0]));
  }

  lemma WholeSegment(rs: seq<Record>, first: nat)
    requires AllStorable(rs) && Consecutive(rs, first)
    ensures ReadSegment(EncodeAll(rs), first) == Recovery(Clean, rs, |EncodeAll(rs)|)
  {
    hide EncodeAll, ReadSegment;
    var k := |EncodeAll(rs)|;
    var m := CutSegment(rs, first, k);
    assert EncodeAll(rs)[..k] == EncodeAll(rs);
    if m < |rs| {
      EncodeAllFront(rs, m + 1);
    }
    assert rs[..m] == rs;
  }

  // ----- journals of several segments

  function Joined(groups: seq<seq<Record>>): seq<Record> {
    if groups == [] then [] else groups[0] + Joined(groups[1..])
  }

  /** The records of each group, one segment for each. */
  function Segments(groups: seq<seq<Record>>): seq<seq<U8>>
    requires AllStorable(Joined(groups))
  {
    if groups == [] then []
    else
      JoinedStorable(groups);
      [EncodeAll(groups[0])] + Segments(groups[1..])
  }

  lemma JoinedStorable(groups: seq<seq<Record>>)
    requires groups != [] && AllStorable(Joined(groups))
    ensures AllStorable(groups[0]) && AllStorable(Joined(groups[1..]))
  {
    hide Storable;
    var all := Joined(groups);
    forall i | 0 <= i < |groups[0]| ensures Storable(groups[0][i]) {
      assert all[i] == groups[0][i];
    }
    forall i | 0 <= i < |Joined(groups[1..])| ensures Storable(Joined(groups[1..])[i]) {
      assert all[|groups[0]| + i] == Joined(groups[1..])[i];
    }
  }

  lemma JoinedConsecutive(groups: seq<seq<Record>>, first: nat)
    requires groups != [] && Consecutive(Joined(groups), first)
    ensures Consecutive(groups[0], first) && Consecutive(Joined(groups[1..]), first + |groups[0]|)
  {
    var all := Joined(groups);
    forall i | 0 <= i < |groups[0]| ensures groups[0][i].sequence == first + i {
      assert all[i] == groups[0][i];
    }
    forall i | 0 <= i < |Joined(groups[1..])| ensures Joined(groups[1..])[i].sequence == first + |groups[0]| + i {
      assert all[|groups[0]| + i] == Joined(groups[1..])[i];
    }
  }

  /** Whole segments are read through, and the numbering goes on into the one after them. */
  lemma ReadThrough(groups: seq<seq<Record>>, tail: seq<U8>, first: nat)
    requires AllStorable(Joined(groups)) && Consecutive(Joined(groups), first)
    ensures var rest := ReadSegment(tail, first + |Joined(groups)|);
            var all := ReadJournal(Segments(groups) + [tail], first);
            all.outcome == rest.outcome && all.records == Joined(groups) + rest.records
  {
    hide ReadSegment, ReadJournal, EncodeAll, Storable, Consecutive, Joined, Segments;
    ReadWhole(groups, first);
    var whole := ReadJournal(Segments(groups), first);
    ReadJournalLast(Segments(groups), tail, first, whole.records, whole.good);
  }

  /** Segments that are all whole are read through to the end. */
  lemma {:induction false} ReadWhole(groups: seq<seq<Record>>, first: nat)
    requires AllStorable(Joined(groups)) && Consecutive(Joined(groups), first)
    ensures var all := ReadJournal(Segments(groups), first); all.outcome == Clean && all.records == Joined(groups)
  {
    hide ReadSegment, EncodeAll, Storable;
    if groups != [] {
      JoinedStorable(groups);
      JoinedConsecutive(groups, first);
      WholeSegment(groups[0], first);
      ReadWhole(groups[1..], first + |groups[0]|);
      assert Segments(groups)[0] == EncodeAll(groups[0]) && Segments(groups)[1..] == Segments(groups[1..]);
    }
  }

  // ----- segments cut anywhere

  /** The bytes the first `j` records take. */
  function Bytes(rs: seq<Record>, j: nat): nat
    requires j <= |rs|
  {
    if AllStorable(rs) then |EncodeAll(rs[..j])| else 0
  }

  lemma BytesOf(rs: seq<Record>, j: nat)
    requires AllStorable(rs) && j <= |rs|
    ensures AllStorable(rs[..j]) && Bytes(rs, j) == |EncodeAll(rs[..j])| && rs[..|rs|] == rs
    ensures Bytes(rs, |rs|) == |EncodeAll(rs)|
  {
    hide EncodeAll, Storable;
    assert rs[..|rs|] == rs;
  }

  /** Exactly the first `j` records lie wholly inside the first `k` bytes. */
  predicate Inside(rs: seq<Record>, j: nat, k: nat) {
    j <= |rs| && Bytes(rs, j) <= k && (j < |rs| ==> k < Bytes(rs, j + 1))
  }

  /** Of each segment, so many bytes are left. */
  predicate Cutting(groups: seq<seq<Record>>, cuts: seq<nat>)
    requires |cuts| == |groups|
  {
    forall i :: 0 <= i < |groups| ==> AllStorable(groups[i]) && cuts[i] <= Bytes(groups[i], |groups[i]|)
  }

  function CutSegments(groups: seq<seq<Record>>, cuts: seq<nat>): seq<seq<U8>>
    requires |cuts| == |groups| && Cutting(groups, cuts)
  {
    seq(|groups|, i requires 0 <= i < |groups| => CutBytes(groups[i], cuts[i]))
  }

  function CutBytes(rs: seq<Record>, k: nat): seq<U8>
    requires AllStorable(rs) && k <= Bytes(rs, |rs|)
  {
    BytesOf(rs, 0);
    EncodeAll(rs)[..k]
  }

  /** How the reading ends once records are missing: at the next segment with anything left in it,
      which gives itself away by its first number, or by not having a whole record. */
  function Aftermath(groups: seq<seq<Record>>, cuts: seq<nat>): Outcome
    requires |cuts| == |groups|
  {
    if groups == [] then Clean
    else if cuts[0] == 0 || groups[0] == [] then Aftermath(groups[1..], cuts[1..])
    else if cuts[0] < Bytes(groups[0], 1) then TornTail
    else SequenceGap
  }

  /** What comes of segments so cut: those before the `i`-th are whole, and of that one the first
      `j` records are delivered and nothing after them. */
  predicate Surviving(groups: seq<seq<Record>>, cuts: seq<nat>, i: nat, j: nat, outcome: Outcome, records: seq<Record>)
    requires |cuts| == |groups|
  {
    && i <= |groups| && (forall h :: 0 <= h < i ==> cuts[h] == Bytes(groups[h], |groups[h]|))
    && if i == |groups| then outcome == Clean && records == Joined(groups)
       else
         && cuts[i] < Bytes(groups[i], |groups[i]|) && Inside(groups[i], j, cuts[i])
         && records == Joined(groups[..i]) + groups[i][..j]
         && outcome == if Bytes(groups[i], j) < cuts[i] then TornTail else Aftermath(groups[i + 1..], cuts[i + 1..])
  }

  lemma CutFront(groups: seq<seq<Record>>, cuts: seq<nat>)
    requires |cuts| == |groups| && Cutting(groups, cuts) && groups != []
    ensures AllStorable(groups[0]) && cuts[0] <= Bytes(groups[0], |groups[0]|) && Cutting(groups[1..], cuts[1..])
    ensures CutSegments(groups, cuts) == [CutBytes(groups[0], cuts[0])] + CutSegments(groups[1..], cuts[1..])
  {
    hide Bytes, CutBytes, AllStorable;
  }

  /** The first segment, and then the rest if it ends well. */
  lemma ReadCutFront(groups: seq<seq<Record>>, cuts: seq<nat>, expected: nat)
    requires |cuts| == |groups| && Cutting(groups, cuts) && groups != []
    ensures AllStorable(groups[0]) && cuts[0] <= Bytes(groups[0], |groups[0]|) && Cutting(groups[1..], cuts[1..])
    ensures var head := ReadSegment(CutBytes(groups[0], cuts[0]), expected);
            ReadJournal(CutSegments(groups, cuts), expected) ==
              if head.outcome != Clean then head
              else Resumed(head.records, head.good,
                           ReadJournal(CutSegments(groups[1..], cuts[1..]), expected + |head.records|))
  {
    hide Bytes, AllStorable, Cutting, ReadSegment, ReadJournal, Resumed, CutSegments, CutBytes;
    CutFront(groups, cuts);
    var disk := CutSegments(groups, cuts);
    assert disk[0] == CutBytes(groups[0], cuts[0]) && disk[1..] == CutSegments(groups[1..], cuts[1..]);
    ReadJournalFront(disk, expected);
  }

  lemma NoneCut()
    ensures Cutting([], []) && CutSegments([], []) == [] && Aftermath([], []) == Clean
  {
  }

  /** Segments numbered beyond what is expected deliver nothing. */
  lemma {:induction false} NothingMore(groups: seq<seq<Record>>, cuts: seq<nat>, first: nat, expected: nat)
    requires |cuts| == |groups| && Cutting(groups, cuts) && Consecutive(Joined(groups), first) && expected < first
    ensures ReadJournal(CutSegments(groups, cuts), expected) == Recovery(Aftermath(groups, cuts), [], 0)
    decreases groups
  {
    hide Bytes, AllStorable, Cutting, Consecutive, Joined, ReadSegment, ReadJournal, Resumed, CutSegments, CutBytes;
    ReadNoSegments(expected);
    if groups == [] {
      NoneCut();
    } else {
      ReadCutFront(groups, cuts, expected);
      JoinedConsecutive(groups, first);
      OutOfTurn(groups[0], cuts[0], first, expected);
      if cuts[0] == 0 || groups[0] == [] {
        NothingMore(groups[1..], cuts[1..], first + |groups[0]|, expected);
        ResumedNothing(ReadJournal(CutSegments(groups[1..], cuts[1..]), expected));
      }
    }
  }

  lemma OutOfTurn(rs: seq<Record>, k: nat, first: nat, expected: nat)
    requires AllStorable(rs) && Consecutive(rs, first) && expected < first && k <= Bytes(rs, |rs|)
    ensures ReadSegment(CutBytes(rs, k), expected) ==
            Recovery(if k == 0 || rs == [] then Clean else if k < Bytes(rs, 1) then TornTail else SequenceGap, [], 0)
  {
    hide Encode, EncodeAll, Decode, ReadSegment, Storable, Bytes;
    EncodeAllNone(rs);
    BytesOf(rs, 0);
    ReadNothing(expected);
    if k == 0 || rs == [] {
      assert CutBytes(rs, k) == [] by { assert rs == [] ==> rs[..0] == rs; }
    } else {
      FirstEncoded(rs);
      BytesOf(rs, 1);
      EncodeAllStep(rs, 1);
      EncodeAllNone(rs[1..]);
      var e, cut := Encode(rs[0]), EncodeAll(rs)[..k];
      ReadSegmentStep(cut, expected);
      if k < |e| {
        assert cut == e[..k];
        PrefixIncomplete(rs[0], k);
      } else {
        assert cut[..|e|] == e;
        DecodeExact(cut, rs[0], |e|);
      }
    }
  }

  /** A journal in any number of segments, each cut anywhere: the segments before the first cut are
      delivered, and the records of that one that lie wholly inside the cut, and nothing else. */
  lemma {:induction false} CutJournal(groups: seq<seq<Record>>, cuts: seq<nat>, first: nat) returns (i: nat, j: nat)
    requires |cuts| == |groups| && Cutting(groups, cuts) && Consecutive(Joined(groups), first)
    ensures var found := ReadJournal(CutSegments(groups, cuts), first);
            Surviving(groups, cuts, i, j, found.outcome, found.records)
    decreases groups
  {
    hide Bytes, AllStorable, Cutting, Consecutive, Joined, ReadSegment, ReadJournal, Resumed, CutSegments, CutBytes,
         Aftermath, Surviving;
    i, j := 0, 0;
    if groups == [] {
      assert cuts == [];
      ReadNoSegments(first);
      NoneCut();
      NothingCut();
    } else {
      ReadCutFront(groups, cuts, first);
      JoinedConsecutive(groups, first);
      var rest, left := groups[1..], cuts[1..];
      j := CutWithin(groups[0], first, cuts[0]);
      if cuts[0] == Bytes(groups[0], |groups[0]|) {
        var found := ReadJournal(CutSegments(rest, left), first + |groups[0]|);
        i, j := CutJournal(rest, left, first + |groups[0]|);
        StoppedHere(groups[0], cuts[0], found);
        SurvivingOn(groups, cuts, i, j, found.outcome, found.records);
        i := i + 1;
      } else {
        if Bytes(groups[0], j) == cuts[0] {
          NothingMore(rest, left, first + |groups[0]|, first + j);
          ResumedNone(groups[0][..j], cuts[0], Aftermath(rest, left));
        }
        CutHere(groups, cuts, j, ReadJournal(CutSegments(groups, cuts), first).outcome);
      }
    }
  }

  lemma CutWithin(rs: seq<Record>, first: nat, k: nat) returns (j: nat)
    requires AllStorable(rs) && Consecutive(rs, first) && k <= Bytes(rs, |rs|)
    ensures Inside(rs, j, k)
    ensures ReadSegment(CutBytes(rs, k), first) ==
            Recovery(if Bytes(rs, j) < k then TornTail else Clean, rs[..j], Bytes(rs, j))
    ensures k < Bytes(rs, |rs|) ==> j < |rs|
    ensures k == Bytes(rs, |rs|) ==> ReadSegment(CutBytes(rs, k), first) == Recovery(Clean, rs, k)
  {
    hide EncodeAll, ReadSegment, Storable, Bytes;
    BytesOf(rs, 0);
    j := CutSegment(rs, first, k);
    BytesOf(rs, j);
    if j < |rs| {
      BytesOf(rs, j + 1);
    }
    if k == Bytes(rs, |rs|) {
      WholeSegment(rs, first);
      assert EncodeAll(rs)[..k] == EncodeAll(rs);
    }
  }

  lemma ResumedNone(records: seq<Record>, bytes: nat, outcome: Outcome)
    ensures Resumed(records, bytes, Recovery(outcome, [], 0)) == Recovery(outcome, records, bytes)
  {
    assert records + [] == records;
  }

  lemma NothingCut()
    ensures Surviving([], [], 0, 0, Clean, [])
  {
  }

  lemma CutHere(groups: seq<seq<Record>>, cuts: seq<nat>, j: nat, outcome: Outcome)
    requires |cuts| == |groups| && groups != [] && cuts[0] < Bytes(groups[0], |groups[0]|)
    requires Inside(groups[0], j, cuts[0])
    requires outcome == if Bytes(groups[0], j) < cuts[0] then TornTail else Aftermath(groups[1..], cuts[1..])
    ensures Surviving(groups, cuts, 0, j, outcome, groups[0][..j])
  {
    hide Bytes, Aftermath;
    assert groups[..0] == [] && Joined([]) + groups[0][..j] == groups[0][..j];
  }

  lemma SurvivingOn(groups: seq<seq<Record>>, cuts: seq<nat>, i: nat, j: nat, outcome: Outcome, records: seq<Record>)
    requires |cuts| == |groups| && groups != [] && cuts[0] == Bytes(groups[0], |groups[0]|)
    requires Surviving(groups[1..], cuts[1..], i, j, outcome, records)
    ensures Surviving(groups, cuts, i + 1, j, outcome, groups[0] + records)
  {
    hide Bytes, Aftermath;
    forall h | 0 <= h < i + 1 ensures cuts[h] == Bytes(groups[h], |groups[h]|) {
      if h > 0 {
        assert cuts[h] == cuts[1..][h - 1] && groups[h] == groups[1..][h - 1];
      }
    }
    if i < |groups[1..]| {
      assert groups[..i + 1][0] == groups[0] && groups[..i + 1][1..] == groups[1..][..i];
      assert groups[1..][i] == groups[i + 1] && cuts[1..][i] == cuts[i + 1];
      assert groups[1..][i + 1..] == groups[i + 2..] && cuts[1..][i + 1..] == cuts[i + 2..];
      assert groups[0] + (Joined(groups[1..][..i]) + groups[i + 1][..j]) ==
             groups[0] + Joined(groups[1..][..i]) + groups[i + 1][..j];
    }
  }

  /** After a damaged journal has been truncated to what could be read, a restarted venue may go on in
      new segments and all of it is read; as long as it has not been, none of that is. */
  lemma GoesOn(segments: seq<seq<U8>>, kept: seq<seq<U8>>, groups: seq<seq<Record>>, first: nat)
    requires var found := ReadJournal(segments, first);
             && found.outcome != Clean && ReadJournal(kept, first) == found.(outcome := Clean)
             && AllStorable(Joined(groups)) && Consecutive(Joined(groups), first + |found.records|)
    ensures var found := ReadJournal(segments, first);
            var all := ReadJournal(kept + Segments(groups), first);
            && ReadJournal(segments + Segments(groups), first) == found
            && all.outcome == Clean && all.records == found.records + Joined(groups)
  {
    hide ReadJournal, Segments, Joined, Consecutive, AllStorable, ReadSegment;
    var found := ReadJournal(segments, first);
    ReadJournalConcat(segments, Segments(groups), first);
    ReadJournalConcat(kept, Segments(groups), first);
    ReadWhole(groups, first + |found.records|);
  }

  /** Whatever is on disk, what is delivered is storable and numbered without a gap. */
  lemma {:induction false} ReadJournalSound(segments: seq<seq<U8>>, first: nat)
    ensures var r := ReadJournal(segments, first); Consecutive(r.records, first) && AllStorable(r.records)
  {
    hide ReadSegment, Storable, EncodeAll, Consecutive, AllStorable;
    NoneDelivered(first);
    if segments != [] {
      ReadSegmentSound(segments[0], first);
      var head := ReadSegment(segments[0], first);
      if head.outcome == Clean {
        var rest := ReadJournal(segments[1..], first + |head.records|);
        ReadJournalSound(segments[1..], first + |head.records|);
        DeliveredOn(head.records, rest.records, first);
      }
    }
  }

  lemma NoneDelivered(first: nat)
    ensures Consecutive([], first) && AllStorable([])
  {
  }

  lemma DeliveredOn(a: seq<Record>, b: seq<Record>, first: nat)
    requires Consecutive(a, first) && AllStorable(a) && Consecutive(b, first + |a|) && AllStorable(b)
    ensures Consecutive(a + b, first) && AllStorable(a + b)
  {
    hide Storable;
  }
}
