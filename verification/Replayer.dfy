/** Rebuilding an engine from its journal. */
module Replaying {
  import opened Types
  import opened OrderBooks
  import opened Crc32c
  import opened JournalRecord
  import opened JournalReader
  import Venue
  import opened Engine

  lemma {:induction false} ReplayCounts(rs: seq<Record>)
    requires Venue.Replayable(rs) && Consecutive(rs, 1)
    ensures Venue.Replay(rs).sequence <= |rs|
  {
    hide Venue.Perform, Venue.Passes;
    if rs != [] {
      var prefix, r := rs[..|rs| - 1], rs[|rs| - 1];
      ReplayCounts(prefix);
      var t := Venue.Replay(prefix).(sequence := r.sequence - 1);
      if Venue.Passes(t, r.body) {
        Venue.PerformDefined(t, r.body, r.timestamp);
      }
    }
  }

  /** How many commands of each kind have been applied. */
  datatype Report = Report(instrumentsDefined: nat, ordersSubmitted: nat, cancelsApplied: nat, replacesApplied: nat)

  function Counted(report: Report, r: Record): Report {
    match r.body
    case InstrumentDefined(_) => report.(instrumentsDefined := report.instrumentsDefined + 1)
    case NewOrderEntered(_) => report.(ordersSubmitted := report.ordersSubmitted + 1)
    case OrderCancelled(_) => report.(cancelsApplied := report.cancelsApplied + 1)
    case OrderReplaced(_) => report.(replacesApplied := report.replacesApplied + 1)
  }

  function CountedAll(report: Report, rs: seq<Record>): Report {
    if rs == [] then report else Counted(CountedAll(report, rs[..|rs| - 1]), rs[|rs| - 1])
  }

  /** How many of the records have this type byte. */
  function HowMany(rs: seq<Record>, code: nat): nat {
    if rs == [] then 0 else HowMany(rs[..|rs| - 1], code) + if TypeCode(rs[|rs| - 1].body) == code then 1 else 0
  }

  /** Every record is counted once, under its type. */
  lemma {:induction false} CountedByType(rs: seq<Record>)
    ensures var report := CountedAll(Report(0, 0, 0, 0), rs);
            && report.instrumentsDefined == HowMany(rs, 1) && report.ordersSubmitted == HowMany(rs, 2)
            && report.cancelsApplied == HowMany(rs, 3) && report.replacesApplied == HowMany(rs, 4)
            && report.instrumentsDefined + report.ordersSubmitted + report.cancelsApplied + report.replacesApplied
               == |rs|
  {
    if rs != [] {
      CountedByType(rs[..|rs| - 1]);
    }
  }

  /** Records that can be replayed one by one, every submission finding a handle left for it. */
  predicate Fitting(rs: seq<Record>) {
    && Venue.Replayable(rs)
    && forall i :: 0 <= i < |rs| ==> Venue.Replayable(rs[..i]) && HasRoom(Venue.Replay(rs[..i]), rs[i].body)
  }

  class Replayer {
    const engine: MatchingEngine
    var report: Report

    /** A bare engine: no journal, no risk. */
    ghost predicate Ready()
      reads this, engine, engine.Repr()
    {
      engine.Valid() && engine.journal == null && engine.risk == null && this !in engine.Repr()
    }

    constructor (engine: MatchingEngine)
      requires engine.Valid() && engine.journal == null && engine.risk == null
      ensures Ready() && this.engine == engine && report == Report(0, 0, 0, 0)
    {
      hide MatchingEngine.Valid, OrderBook.Repr, OrderBook.Valid;
      this.engine := engine;
      report := Report(0, 0, 0, 0);
      new;
      assert this !in engine.Repr();
    }

    /** Gives the command the number and the time it had, and runs it. */
    method Apply(r: Record, hash: nat -> nat, capacity: nat)
      requires Ready() && Venue.Defined(engine.state) && Venue.Sane(r.body) && Storable(r)
      requires engine.sequence + 1 <= r.sequence && HasRoom(engine.state, r.body)
      modifies this, engine.Repr()
      ensures Ready() && engine.state == Venue.ReplayOne(old(engine.state), r)
              && fresh(engine.Repr() - old(engine.Repr()))
      ensures report == Counted(old(report), r)
    {
      hide MatchingEngine.Valid, OrderBook.Repr, OrderBook.Valid, Venue.Perform, Venue.Passes, Venue.Defined;
      ghost var s := engine.state;
      engine.RestoreSequence(r.sequence - 1);
      RestoredDefined(s, r.sequence - 1);
      match r.body {
        case InstrumentDefined(i) =>
          var ok := engine.AddInstrument(i, r.timestamp, hash, capacity, true);
          assert this !in engine.Repr();
          report := report.(instrumentsDefined := report.instrumentsDefined + 1);
        case NewOrderEntered(o) =>
          var outcome, fills := engine.Submit(o, r.timestamp, false, true);
          assert this !in engine.Repr();
          report := report.(ordersSubmitted := report.ordersSubmitted + 1);
        case OrderCancelled(c) =>
          var outcome := engine.Cancel(c, r.timestamp, true);
          assert this !in engine.Repr();
          report := report.(cancelsApplied := report.cancelsApplied + 1);
        case OrderReplaced(c) =>
          var outcome, fills := engine.Replace(c, r.timestamp, true);
          assert this !in engine.Repr();
          report := report.(replacesApplied := report.replacesApplied + 1);
      }
    }

    /** Reads the journal and applies what it delivers, record by record. */
    method Replay(table: seq<bv32>, segments: seq<seq<U8>>, hash: nat -> nat, capacity: nat) returns (outcome: Outcome)
      requires Ready() && engine.state == Venue.NOTHING && IsTable(table)
      requires Fitting(ReadJournal(segments, 1).records)
      modifies this, engine.Repr()
      ensures Ready() && outcome == ReadJournal(segments, 1).outcome
      ensures engine.state == Venue.Replay(ReadJournal(segments, 1).records)
      ensures report == CountedAll(old(report), ReadJournal(segments, 1).records)
    {
      hide MatchingEngine.Valid, OrderBook.Repr, OrderBook.Valid, ReadJournal, Storable, IsTable, Venue.ReplayOne,
           Counted;
      var records, bytes, last, damaged, good;
      outcome, records, bytes, last, damaged, good := Read(table, segments, 1);
      ReadJournalSound(segments, 1);
      assert records[..0] == [];
      for i := 0 to |records|
        invariant Ready() && fresh(engine.Repr() - old(engine.Repr()))
        invariant Venue.Replayable(records[..i]) && engine.state == Venue.Replay(records[..i])
        invariant report == CountedAll(old(report), records[..i])
      {
        ReplayCounts(records[..i]);
        assert records[..i + 1][..i] == records[..i];
        engine.Facts();
        Apply(records[i], hash, capacity);
      }
      assert records[..|records|] == records;
    }
  }

  lemma RestoredDefined(s: Venue.State, n: nat)
    requires Venue.Defined(s)
    ensures Venue.Defined(s.(sequence := n))
  {
  }
}
