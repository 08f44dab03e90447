/** The journal, the crash and the restart, on the classes themselves. */
module Restart {
  import opened Types
  import opened Slab
  import opened OrderBooks
  import opened Crc32c
  import opened JournalRecord
  import opened JournalReader
  import opened Venue
  import opened Engine
  import opened Replaying
  import opened Risk
  import opened RiskRuns
  import opened Trading
  import Crash

  predicate AllStored(attempts: seq<Attempt>) {
    forall i :: 0 <= i < |attempts| ==> attempts[i].stored
  }

  /** A disk that takes every record leaves the journal healthy. */
  lemma {:induction false} StaysHealthy(attempts: seq<Attempt>)
    requires AllSane(attempts) && AllStored(attempts)
    ensures LiveAll(attempts).healthy
  {
    hide Perform, Passes;
    if attempts != [] {
      StaysHealthy(attempts[..|attempts| - 1]);
    }
  }

  lemma LiveNext(attempts: seq<Attempt>, i: nat)
    requires AllSane(attempts) && i < |attempts|
    ensures AllSane(attempts[..i]) && AllSane(attempts[..i + 1])
    ensures LiveAll(attempts[..i + 1]) == Live(LiveAll(attempts[..i]), attempts[i])
  {
    hide Live;
    assert attempts[..i + 1][..i] == attempts[..i];
  }

  /** One command at an engine with a journal and no risk checks. */
  method Dispatch(engine: MatchingEngine, a: Attempt, hash: nat -> nat, capacity: nat)
    requires engine.Valid() && engine.journal != null && engine.risk == null
    requires IsU64(engine.sequence + 1) && HasRoom(engine.state, a.body)
    requires Defined(engine.state) && Sane(a.body)
    modifies engine.Repr()
    ensures engine.Valid() && fresh(engine.Repr() - old(engine.Repr()))
    ensures engine.Now() == Live(old(engine.Now()), a)
  {
    hide MatchingEngine.Valid, OrderBook.Repr, OrderBook.Valid, Live, Defined, CancelAnswer, ReplaceAnswer,
         SubmitAnswer;
    if !a.body.NewOrderEntered? {
      OnlyOrdersAreAdmitted(engine.Now(), a);
    }
    match a.body {
      case InstrumentDefined(i) =>
        var ok := engine.AddInstrument(i, a.now, hash, capacity, a.stored);
      case NewOrderEntered(o) =>
        var outcome, fills := engine.Submit(o, a.now, !a.admitted, a.stored);
      case OrderCancelled(c) =>
        var outcome := engine.Cancel(c, a.now, a.stored);
      case OrderReplaced(c) =>
        var outcome, fills := engine.Replace(c, a.now, a.stored);
    }
  }

  /** At every moment the next order finds a handle left for it. */
  predicate Fits(attempts: seq<Attempt>)
    requires AllSane(attempts)
  {
    forall i :: 0 <= i < |attempts| ==> HasRoom(LiveAll(attempts[..i]).state, attempts[i].body)
  }

  /** So it is with every run of no more commands than there are handles. */
  lemma ShortRunFits(attempts: seq<Attempt>)
    requires AllSane(attempts) && |attempts| <= NULL_HANDLE
    ensures Fits(attempts)
  {
    hide LiveAll, Consecutive;
    forall i | 0 <= i < |attempts| ensures HasRoom(LiveAll(attempts[..i]).state, attempts[i].body) {
      var s, b := LiveAll(attempts[..i]).state, attempts[i].body;
      GapFree(attempts[..i]);
      if b.NewOrderEntered? && b.order.instrument in s.books {
        LiveSized(attempts[..i], b.order.instrument);
      }
    }
  }

  /** What was recorded while there was room can be replayed where there is room. */
  lemma FitsReplayed(attempts: seq<Attempt>, m: nat)
    requires AllSane(attempts) && Fits(attempts) && m <= |attempts|
    ensures Fitting(LiveAll(attempts[..m]).journal)
  {
    hide LiveAll, Replay, Replayable, HasRoom, Consecutive;
    var run := attempts[..m];
    var rs := LiveAll(run).journal;
    ReplayReproduces(run);
    forall i | 0 <= i < |rs| ensures Replayable(rs[..i]) && HasRoom(Replay(rs[..i]), rs[i].body) {
      var k := JournalPrefix(run, i);
      assert run[..k] == attempts[..k];
      ReplayReproduces(attempts[..k]);
      GapFree(attempts[..k]);
      assert HasRoom(LiveAll(attempts[..k]).state, attempts[k].body);
    }
  }

  /** Runs an engine with a journal through every command. */
  method Operate(engine: MatchingEngine, attempts: seq<Attempt>, hash: nat -> nat, capacity: nat)
    requires engine.Valid() && engine.journal != null && engine.risk == null && engine.Now() == START
    requires AllSane(attempts) && |attempts| < TWO64 && Fits(attempts)
    modifies engine.Repr()
    ensures engine.Valid() && engine.Now() == LiveAll(attempts)
  {
    hide MatchingEngine.Valid, OrderBook.Repr, OrderBook.Valid, Live, Defined, Consecutive;
    assert attempts[..0] == [];
    for i := 0 to |attempts|
      invariant engine.Valid() && fresh(engine.Repr() - old(engine.Repr()))
      invariant AllSane(attempts[..i]) && engine.Now() == LiveAll(attempts[..i])
    {
      LiveNext(attempts, i);
      GapFree(attempts[..i]);
      engine.Facts();
      Dispatch(engine, attempts[i], hash, capacity);
    }
    assert attempts[..|attempts|] == attempts;
  }

  /** What the segments of a run's journal are worth once each has been cut somewhere: a fresh engine
      rebuilt from what is left is the venue as it was when it had recorded just the commands before
      the first cut, and as it was in the end when nothing was cut. */
  method Rebuild(table: seq<bv32>, disk: seq<seq<U8>>, hash: nat -> nat, capacity: nat, ghost attempts: seq<Attempt>,
                 ghost groups: seq<seq<Record>>, ghost cuts: seq<nat>)
    returns (outcome: Outcome, recovered: MatchingEngine, ghost m: nat, ghost i: nat, ghost j: nat)
    requires IsTable(table) && Crash.Journaled(attempts, groups) && Fits(attempts)
    requires |cuts| == |groups| && Cutting(groups, cuts) && disk == CutSegments(groups, cuts)
    ensures m <= |attempts| && recovered.Valid() && recovered.state == LiveAll(attempts[..m]).state
    ensures Surviving(groups, cuts, i, j, outcome, LiveAll(attempts[..m]).journal)
    ensures i == |groups| ==> m == |attempts|
  {
    hide MatchingEngine.Valid, OrderBook.Repr, OrderBook.Valid, LiveAll, ReadJournal, IsTable, Consecutive,
         Venue.Replay, Replayable, CountedAll, CutSegments, Cutting, Surviving, Fits, Fitting;
    m, i, j := Crash.CrashConsistent(attempts, groups, cuts);
    FitsReplayed(attempts, m);
    recovered := new MatchingEngine(table, null, null);
    var replayer := new Replayer(recovered);
    outcome := replayer.Replay(table, disk, hash, capacity);
  }

  /** The bytes left of each segment, if the disk keeps `kept` of it. */
  function Left(groups: seq<seq<Record>>, kept: nat -> nat): (cuts: seq<nat>)
    ensures |cuts| == |groups|
  {
    seq<nat>(|groups|, i requires 0 <= i < |groups| => Min(kept(i), Bytes(groups[i], |groups[i]|)))
  }

  lemma LeftIsCut(groups: seq<seq<Record>>, kept: nat -> nat)
    requires forall i :: 0 <= i < |groups| ==> AllStorable(groups[i])
    ensures Cutting(groups, Left(groups, kept))
  {
    hide Bytes, AllStorable;
    forall i | 0 <= i < |groups| ensures Left(groups, kept)[i] <= Bytes(groups[i], |groups[i]|) {
      assert Left(groups, kept)[i] == Min(kept(i), Bytes(groups[i], |groups[i]|));
    }
  }

  /** The segments as a crash leaves them. */
  method Survivors(writer: JournalWriter, kept: nat -> nat) returns (disk: seq<seq<U8>>)
    requires writer.Valid()
    ensures Cutting(writer.groups, Left(writer.groups, kept))
    ensures disk == CutSegments(writer.groups, Left(writer.groups, kept))
  {
    hide EncodeAll, Bytes, Joined, Storable;
    ghost var groups := writer.groups;
    LeftIsCut(groups, kept);
    disk := [];
    forall i | 0 <= i < |groups| ensures Bytes(groups[i], |groups[i]|) == |EncodeAll(groups[i])| {
      BytesOf(groups[i], 0);
    }
    for i := 0 to |writer.segments|
      invariant disk == CutSegments(groups, Left(groups, kept))[..i]
    {
      var segment := writer.segments[i];
      disk := disk + [segment[..Min(kept(i), |segment|)]];
    }
  }

  /** A venue without risk checks runs, its process dies and its disk keeps of each segment of the
      journal as much as `kept` says, and a fresh engine is rebuilt from that. */
  method CrashAndRecover(attempts: seq<Attempt>, segmentBytes: nat, kept: nat -> nat, hash: nat -> nat, capacity: nat)
    returns (outcome: Outcome, recovered: MatchingEngine, ghost groups: seq<seq<Record>>, ghost m: nat, ghost i: nat,
             ghost j: nat)
    requires AllSane(attempts) && AllStored(attempts) && |attempts| < TWO64 && Fits(attempts)
    ensures m <= |attempts| && recovered.Valid() && recovered.state == LiveAll(attempts[..m]).state
    ensures Joined(groups) == LiveAll(attempts).journal
    ensures Surviving(groups, Left(groups, kept), i, j, outcome, LiveAll(attempts[..m]).journal)
    ensures i == |groups| ==> m == |attempts|
  {
    hide MatchingEngine.Valid, OrderBook.Repr, OrderBook.Valid, LiveAll, EncodeAll, Storable, IsTable, Surviving,
         Cutting, CutSegments, Left, Fits, Joined, JournalWriter.Valid;
    var table := MakeTable();
    var writer := new JournalWriter(segmentBytes);
    var engine := new MatchingEngine(table, writer, null);
    Operate(engine, attempts, hash, capacity);
    StaysHealthy(attempts);
    engine.JournalFacts();
    groups := writer.groups;
    var disk := Survivors(writer, kept);
    outcome, recovered, m, i, j := Rebuild(table, disk, hash, capacity, attempts, groups, Left(groups, kept));
  }

  /** The same with risk checks, instruments supervised in any way and accounts configured on first
      sight: what is rebuilt is the books and numbering of the desk as they were when it had recorded
      what comes before the first cut. */
  method TradeAndRecover(risk: RiskEngine, limits: AccountLimits, attempts: seq<Attempt>, segmentBytes: nat,
                         kept: nat -> nat, hash: nat -> nat, capacity: nat)
    returns (outcome: Outcome, recovered: MatchingEngine, ghost groups: seq<seq<Record>>, ghost m: nat, ghost i: nat,
             ghost j: nat)
    requires risk.accounts == map[]
    requires AllSane(attempts) && AllStored(attempts) && |attempts| < TWO64
    requires DeskFits(Setup(limits, risk.instruments), attempts)
    modifies risk
    ensures var setup := Setup(limits, old(risk.instruments));
            && m <= |attempts| && recovered.Valid()
            && recovered.state == Actual(setup, attempts[..m]).run.state
            && Joined(groups) == Actual(setup, attempts).run.journal
            && Surviving(groups, Left(groups, kept), i, j, outcome, Actual(setup, attempts[..m]).run.journal)
    ensures i == |groups| ==> m == |attempts|
  {
    hide MatchingEngine.Valid, OrderBook.Repr, OrderBook.Valid, LiveAll, Actual, Decided, EncodeAll, Storable, IsTable,
         Surviving, Cutting, CutSegments, Left, Fits, DeskFits, Joined, JournalWriter.Valid;
    var table := MakeTable();
    var writer := new JournalWriter(segmentBytes);
    var engine := new MatchingEngine(table, writer, risk);
    var setup := Setup(limits, risk.instruments);
    Trade(engine, risk, setup, attempts, hash, capacity);
    DeskIsLive(setup, attempts);
    ghost var vs := Decided(setup, attempts);
    StaysHealthy(vs);
    DecidedFits(setup, attempts);
    engine.JournalFacts();
    groups := writer.groups;
    var disk := Survivors(writer, kept);
    outcome, recovered, m, i, j := Rebuild(table, disk, hash, capacity, vs, groups, Left(groups, kept));
    DecidedPrefix(setup, attempts, m);
    DeskIsLive(setup, attempts[..m]);
  }

  lemma DecidedFits(setup: Setup, attempts: seq<Attempt>)
    requires AllSane(attempts) && DeskFits(setup, attempts)
    ensures Fits(Decided(setup, attempts))
  {
    hide Actual, Decided, LiveAll;
    var vs := Decided(setup, attempts);
    DeskIsLive(setup, attempts);
    forall i | 0 <= i < |vs| ensures HasRoom(LiveAll(vs[..i]).state, vs[i].body) {
      DecidedPrefix(setup, attempts, i);
      DeskIsLive(setup, attempts[..i]);
      assert HasRoom(Actual(setup, attempts[..i]).run.state, attempts[i].body);
    }
  }

  lemma {:induction false} DecidedPrefix(setup: Setup, attempts: seq<Attempt>, m: nat)
    requires AllSane(attempts) && m <= |attempts|
    ensures AllSane(attempts[..m]) && Decided(setup, attempts[..m]) == Decided(setup, attempts)[..m]
  {
    hide Actual, Onboarded, Verdict;
    if m == |attempts| {
      assert attempts[..m] == attempts && Decided(setup, attempts)[..m] == Decided(setup, attempts);
    } else {
      var before := attempts[..|attempts| - 1];
      DecidedPrefix(setup, before, m);
      assert before[..m] == attempts[..m];
      assert Decided(setup, attempts)[..|attempts| - 1] == Decided(setup, before);
    }
  }
}
