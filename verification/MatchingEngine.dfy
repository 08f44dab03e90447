/** The matching engine: gates, numbering, write-ahead journal, books and risk settlement. */
module Engine {
  import opened Types
  import opened Commands
  import opened Matching
  import opened BookInvariant
  import BookSteps
  import BookRuns
  import opened Slab
  import opened OrderBooks
  import opened Crc32c
  import opened JournalRecord
  import opened JournalReader
  import opened Venue
  import opened Risk
  import opened RiskSettle
  import opened RiskLedger
  import opened RiskRuns

  lemma {:induction false} EncodeAllNext(rs: seq<Record>, r: Record)
    requires AllStorable(rs) && Storable(r)
    ensures AllStorable(rs + [r]) && EncodeAll(rs + [r]) == EncodeAll(rs) + Encode(r)
  {
    hide Encode, Storable;
    if rs == [] {
      assert rs + [r] == [r] && [r][1..] == [];
    } else {
      EncodeAllNext(rs[1..], r);
      assert (rs + [r])[1..] == rs[1..] + [r];
    }
  }

  /** The segments once a record has been written: it goes at the end of the last one, and a new
      one is begun when that has reached its size. */
  function Filed(groups: seq<seq<Record>>, r: Record, limit: nat): seq<seq<Record>>
    requires groups != []
  {
    var last := groups[|groups| - 1] + [r];
    groups[..|groups| - 1] + if Bytes(last, |last|) >= limit then [last, []] else [last]
  }

  lemma {:induction false} JoinedConcat(a: seq<seq<Record>>, b: seq<seq<Record>>)
    ensures Joined(a + b) == Joined(a) + Joined(b)
  {
    if a == [] {
      assert a + b == b && Joined(a) + Joined(b) == Joined(b);
    } else {
      JoinedConcat(a[1..], b);
      assert (a + b)[1..] == a[1..] + b && (a + b)[0] == a[0];
      assert a[0] + (Joined(a[1..]) + Joined(b)) == a[0] + Joined(a[1..]) + Joined(b);
    }
  }

  lemma FiledJoins(groups: seq<seq<Record>>, r: Record, limit: nat)
    requires groups != []
    ensures Joined(Filed(groups, r, limit)) == Joined(groups) + [r]
  {
    hide Bytes;
    var front, last := groups[..|groups| - 1], groups[|groups| - 1];
    var filed := Filed(groups, r, limit);
    assert groups == front + [last] && filed == front + filed[|front|..];
    JoinedConcat(front, [last]);
    JoinedConcat(front, filed[|front|..]);
    JoinedOne(last);
    JoinedOne(last + [r]);
    assert Joined(front) + (last + [r]) == Joined(front) + last + [r];
  }

  lemma JoinedOne(rs: seq<Record>)
    ensures Joined([rs]) == rs == Joined([rs, []])
  {
    var none: seq<seq<Record>> := [[]];
    assert [rs][1..] == [] && [rs, []][1..] == none && none[1..] == [];
    assert Joined([]) == [] && Joined(none) == [] && rs + [] == rs;
  }

  /** A segment that is complete: its last record, and none before, brought it to its size. */
  predicate Complete(group: seq<Record>, limit: nat) {
    && group != [] && Bytes(group, |group|) >= limit
    && (|group| == 1 || Bytes(group, |group| - 1) < limit)
  }

  /** Every segment but the last is complete, and the last is short of its size. */
  ghost predicate Sized(groups: seq<seq<Record>>, limit: nat) {
    && groups != [] && (forall i :: 0 <= i < |groups| - 1 ==> Complete(groups[i], limit))
    && var last := groups[|groups| - 1]; last == [] || Bytes(last, |last|) < limit
  }

  lemma BytesBefore(rs: seq<Record>, r: Record)
    requires AllStorable(rs) && Storable(r)
    ensures Bytes(rs + [r], |rs|) == Bytes(rs, |rs|)
  {
    hide EncodeAll, Storable, Bytes;
    EncodeAllNext(rs, r);
    BytesOf(rs, |rs|);
    BytesOf(rs + [r], |rs|);
    assert (rs + [r])[..|rs|] == rs;
  }

  lemma FiledSized(groups: seq<seq<Record>>, r: Record, limit: nat)
    requires Sized(groups, limit) && AllStorable(groups[|groups| - 1]) && Storable(r)
    ensures Sized(Filed(groups, r, limit), limit)
  {
    hide AllStorable, Storable, Bytes, Complete;
    var front, last := groups[..|groups| - 1], groups[|groups| - 1];
    BytesBefore(last, r);
    var longer := last + [r];
    if Bytes(longer, |longer|) >= limit {
      CompleteNow(last, r, limit);
      assert Filed(groups, r, limit) == front + [longer, []];
    } else {
      assert Filed(groups, r, limit) == front + [longer];
    }
  }

  lemma CompleteNow(rs: seq<Record>, r: Record, limit: nat)
    requires Bytes(rs + [r], |rs|) == Bytes(rs, |rs|) && (rs == [] || Bytes(rs, |rs|) < limit)
    requires Bytes(rs + [r], |rs| + 1) >= limit
    ensures Complete(rs + [r], limit)
  {
    hide Bytes;
  }

  /** The journal as segments of bytes, only ever appended to.  Whether the disk takes a record is
      the world's decision, `stored`; a writer that has failed once never accepts another. */
  class JournalWriter {
    const segmentBytes: nat
    var segments: seq<seq<U8>>
    var healthy: bool
    ghost var groups: seq<seq<Record>>
    ghost var records: seq<Record>

    ghost predicate Valid()
      reads this
    {
      && |segments| == |groups| && records == Joined(groups) && Sized(groups, segmentBytes)
      && forall i :: 0 <= i < |groups| ==> AllStorable(groups[i]) && segments[i] == EncodeAll(groups[i])
    }

    constructor (segmentBytes: nat)
      ensures Valid() && healthy && groups == [[]] && records == [] && this.segmentBytes == segmentBytes
    {
      this.segmentBytes := segmentBytes;
      segments := [[]];
      healthy := true;
      groups := [[]];
      records := [];
    }

    method Append(table: seq<bv32>, r: Record, stored: bool) returns (ok: bool)
      requires Valid() && IsTable(table) && Storable(r)
      modifies this
      ensures Valid() && ok == healthy == (old(healthy) && stored)
      ensures groups == if ok then Filed(old(groups), r, segmentBytes) else old(groups)
      ensures records == if ok then old(records) + [r] else old(records)
    {
      hide Encode, EncodeAll, IsTable, Storable, Bytes, Joined, Complete;
      if !healthy {
        return false;
      }
      if !stored {
        healthy := false;
        return false;
      }
      var last := |segments| - 1;
      EncodeAllNext(groups[last], r);
      BytesOf(groups[last] + [r], 0);
      FiledJoins(groups, r, segmentBytes);
      FiledSized(groups, r, segmentBytes);
      var bytes := EncodeInto(table, r, segments[last]);
      segments := segments[..last] + [bytes];
      if |bytes| >= segmentBytes {
        segments := segments + [[]];
      }
      EncodeAllNone([]);
      groups := Filed(groups, r, segmentBytes);
      records := records + [r];
      return true;
    }
  }

  /** A new order finds room in the slab of its book. */
  predicate HasRoom(s: State, b: Body) {
    b.NewOrderEntered? && b.order.instrument in s.books ==> BookRuns.Size(s.books[b.order.instrument]) < NULL_HANDLE
  }

  /** Books that share no object, all within the ground. */
  ghost predicate OnOwnGround(books: map<nat, OrderBook>, ground: set<object>) {
    && (forall k :: k in books ==> books[k] in books[k].Repr() && books[k].Repr() <= ground)
    && (forall j, k :: j in books && k in books && j != k ==> books[j].Repr() !! books[k].Repr())
  }

  /** A result and the number the command took, 0 when it took none. */
  datatype Sequenced<R> = Sequenced(result: R, sequence: nat)

  class MatchingEngine {
    var sequence: nat
    var books: map<nat, OrderBook>
    var symbols: map<seq<U8>, nat>
    const table: seq<bv32>
    const journal: JournalWriter?
    const risk: RiskEngine?
    ghost var state: State
    ghost var shelf: set<object>

    ghost function Attached(): set<object> {
      (if journal != null then {journal} else {}) + (if risk != null then {risk} else {})
    }

    ghost function Repr(): set<object>
      reads this
    {
      {this} + Attached() + shelf
    }

    /** The books are separate objects, on a shelf of their own. */
    ghost predicate Separate()
      reads `books, `shelf
    {
      OnOwnGround(books, shelf) && this !in shelf && Attached() !! shelf
    }

    /** Each holds the state's book of its instrument. */
    ghost predicate Shelved()
      reads this, shelf
    {
      && Separate() && books.Keys == state.books.Keys
      && forall k :: k in books ==> books[k].Valid() && books[k].book == state.books[k]
    }

    ghost predicate Valid()
      reads this, Repr()
    {
      && Shelved() && IsTable(table) && Orderly(state)
      && sequence == state.sequence && symbols == state.symbols
      && (journal != null ==> journal.Valid())
    }

    constructor (crcTable: seq<bv32>, journal: JournalWriter?, risk: RiskEngine?)
      requires IsTable(crcTable) && (journal != null ==> journal.Valid())
      ensures Valid() && state == NOTHING && this.journal == journal && this.risk == risk && shelf == {}
    {
      sequence := 0;
      books := map[];
      symbols := map[];
      table := crcTable;
      this.journal := journal;
      this.risk := risk;
      state := NOTHING;
      shelf := {};
    }

    /** The run so far, as far as this engine's journal tells. */
    ghost function Now(): Run
      reads this, journal
    {
      Run(state, if journal != null then journal.records else [], journal != null ==> journal.healthy)
    }

    /** Records a numbered command; without a journal there is nothing to record. */
    method JournalCommand(r: Record, stored: bool) returns (ok: bool)
      requires Valid() && Storable(r)
      modifies journal
      ensures Valid()
      ensures journal != null ==> ok == journal.healthy == (old(journal.healthy) && stored)
      ensures journal != null ==> journal.records == if ok then old(journal.records) + [r] else old(journal.records)
      ensures journal == null ==> ok
      ensures risk != null ==> risk.Now() == old(risk.Now())
    {
      hide OrderBook.Valid, OrderBook.Repr, Orderly, IsTable, JournalWriter.Valid, Storable;
      if journal == null {
        return true;
      }
      ok := journal.Append(table, r, stored);
    }

    /** Reports everything the book just did to risk. */
    method SettleRisk(instrument: nat, fills: seq<Fill>, withdrawals: seq<Withdrawal>)
      requires Valid() && risk != null
      modifies risk
      ensures Valid() && state == old(state) && shelf == old(shelf) && (journal != null ==> unchanged(journal))
      ensures risk.Now() == Settled(old(risk.Now()), instrument, fills, withdrawals)
    {
      hide OrderBook.Repr, OrderBook.Valid, Orderly, IsTable, JournalWriter.Valid, Filled, Closed, Released,
           Referenced;
      for i := 0 to |fills|
        invariant risk.Now() == SettleFills(old(risk.Now()), fills[..i])
      {
        assert fills[..i + 1][..i] == fills[..i];
        risk.OnFill(fills[i]);
        if fills[i].restingFilled {
          risk.OnOrderClosed(fills[i].restingAccount);
        }
      }
      assert fills[..|fills|] == fills;
      ghost var settled := risk.Now();
      for i := 0 to |withdrawals|
        invariant risk.Now() == SettleWithdrawals(settled, withdrawals[..i])
      {
        var w := withdrawals[i];
        assert withdrawals[..i + 1][..i] == withdrawals[..i];
        risk.OnWorkingReleased(w.account, w.instrument, w.side, w.quantity);
        if w.fullyRemoved {
          risk.OnOrderClosed(w.account);
        }
      }
      assert withdrawals[..|withdrawals|] == withdrawals;
      if fills != [] {
        risk.SetReferencePrice(instrument, fills[|fills| - 1].price);
      }
    }

    /** Takes an order that left the book, or is about to, off the ledger. */
    method ReleaseRisk(o: Order)
      requires Valid() && risk != null
      modifies risk
      ensures Valid() && state == old(state) && shelf == old(shelf) && (journal != null ==> unchanged(journal))
      ensures risk.Now() == Withdrawn(old(risk.Now()), o)
    {
      hide OrderBook.Repr, OrderBook.Valid, Orderly, IsTable, JournalWriter.Valid, Closed, Released;
      risk.OnWorkingReleased(o.account, o.instrument, o.side, o.remaining);
      risk.OnOrderClosed(o.account);
    }

    method CommitRisk(o: Order)
      requires Valid() && risk != null
      modifies risk
      ensures Valid() && state == old(state) && shelf == old(shelf) && (journal != null ==> unchanged(journal))
      ensures risk.Now() == Committed(old(risk.Now()), o)
    {
      hide OrderBook.Repr, OrderBook.Valid, Orderly, IsTable, JournalWriter.Valid, Committed;
      risk.OnOrderRested(o);
    }

    method AskRisk(c: NewOrder, now: int) returns (reject: RejectReason)
      requires Valid() && risk != null
      modifies risk
      ensures Valid() && state == old(state) && shelf == old(shelf) && (journal != null ==> unchanged(journal))
      ensures (reject, risk.Now()) == Check(old(risk.Now()), c, now)
    {
      hide OrderBook.Repr, OrderBook.Valid, Orderly, IsTable, JournalWriter.Valid, Check;
      reject := risk.CheckOrder(c, now);
    }

    lemma Facts()
      requires Valid()
      ensures Orderly(state) && Defined(state) && sequence == state.sequence && symbols == state.symbols
      ensures books.Keys == state.books.Keys
    {
      OrderlyDefined(state);
    }

    lemma OnShelf(k: nat)
      requires Valid() && k in books
      ensures books[k].Repr() <= shelf
    {
      hide OrderBook.Repr, OrderBook.Valid, Orderly, IsTable, JournalWriter.Valid;
    }

    lemma JournalFacts()
      requires Valid() && journal != null
      ensures journal.Valid() && Joined(journal.groups) == journal.records
    {
      hide OrderBook.Repr, OrderBook.Valid, Orderly, Shelved;
    }

    /** Takes the next number. */
    method NextSequence()
      requires Valid()
      modifies this
      ensures sequence == old(sequence) + 1 && state == old(state).(sequence := sequence)
      ensures books == old(books) && symbols == old(symbols) && shelf == old(shelf)
      ensures Valid()
    {
      hide OrderBook.Valid, OrderBook.Repr, BookOk, Fresh, IsTable, JournalWriter.Valid;
      Renumbered(state, sequence + 1);
      sequence := sequence + 1;
      state := state.(sequence := sequence);
    }

    /** Forces the number the next command will receive: for replay, and nothing else. */
    method RestoreSequence(last: nat)
      requires Valid() && last >= sequence
      modifies this
      ensures Valid() && sequence == last && state == old(state).(sequence := last)
      ensures books == old(books) && symbols == old(symbols) && shelf == old(shelf)
    {
      hide OrderBook.Valid, OrderBook.Repr, BookOk, Fresh, IsTable, JournalWriter.Valid;
      Renumbered(state, last);
      sequence := last;
      state := state.(sequence := last);
    }

    /** Numbers a command and records it. */
    method Enter(body: Body, now: I64, stored: bool) returns (ok: bool)
      requires Valid() && Sane(body) && IsU64(sequence + 1)
      modifies this, journal
      ensures Valid() && sequence == old(sequence) + 1 && state == old(state).(sequence := sequence)
      ensures books == old(books) && symbols == old(symbols) && shelf == old(shelf)
      ensures ok == (journal != null ==> old(journal.healthy) && stored)
      ensures Now() == Run(state, if journal != null && ok then old(Now()).journal + [Record(sequence, now, body)]
                           else old(Now()).journal, ok)
      ensures risk != null ==> risk.Now() == old(risk.Now())
    {
      hide OrderBook.Repr, OrderBook.Valid, Valid, Orderly, Storable;
      NextSequence();
      Numberable(sequence, now, body);
      ok := JournalCommand(Record(sequence, now, body), stored);
    }

    /** Risk after an amendment, when it has been released. */
    method SettleReplace(c: ReplaceOrder, previous: Order, outcome: ReplaceResult, fills: seq<Fill>,
                         withdrawals: seq<Withdrawal>)
      requires Valid() && risk != null && c.instrument in books && c.instrument in state.books
      modifies risk
      ensures Valid() && state == old(state) && shelf == old(shelf) && (journal != null ==> unchanged(journal))
      ensures risk.Now() ==
              if outcome.reject != Accepted then Committed(old(risk.Now()), previous)
              else Booked(Settled(old(risk.Now()), c.instrument, fills, withdrawals),
                          state.books[c.instrument].Find(c.id))
    {
      hide OrderBook.Repr, OrderBook.Valid, Valid, Settled, Committed, Book.Find;
      if outcome.reject != Accepted {
        CommitRisk(previous);
      } else {
        SettleRisk(c.instrument, fills, withdrawals);
        var amended := FindIn(c.instrument, c.id);
        if amended.Some? {
          CommitRisk(amended.value);
        }
      }
    }

    /** Risk after a submission. */
    method SettleSubmit(c: NewOrder, outcome: SubmitResult, fills: seq<Fill>, withdrawals: seq<Withdrawal>)
      requires Valid() && risk != null && c.instrument in books && c.instrument in state.books
      modifies risk
      ensures Valid() && state == old(state) && shelf == old(shelf) && (journal != null ==> unchanged(journal))
      ensures risk.Now() ==
              if outcome.reject != Accepted then old(risk.Now())
              else Booked(Settled(old(risk.Now()), c.instrument, fills, withdrawals),
                            if outcome.rested then state.books[c.instrument].Find(c.id) else None)
    {
      hide OrderBook.Repr, OrderBook.Valid, Valid, Settled, Committed, Book.Find;
      if outcome.reject != Accepted {
        return;
      }
      SettleRisk(c.instrument, fills, withdrawals);
      if outcome.rested {
        // Recorded as it actually rests: part of it may have traded on the way in.
        var rested := FindIn(c.instrument, c.id);
        if rested.Some? {
          CommitRisk(rested.value);
        }
      }
    }

    /** May the books move on to `after`? */
    ghost predicate MayFile(after: State)
      reads this
    {
      after.sequence == state.sequence && after.symbols == state.symbols && Orderly(after)
    }

    /** Only a book and what stands for it have moved. */
    twostate predicate Quiet()
      reads this, journal, risk
    {
      && sequence == old(sequence) && books == old(books) && symbols == old(symbols) && shelf == old(shelf)
      && (journal != null ==> unchanged(journal)) && (risk != null ==> risk.Now() == old(risk.Now()))
    }

    /** A change confined to one book leaves the others as they were. */
    twostate lemma OthersStand(k: nat)
      requires old(Shelved()) && k in old(books) && old(books) == books && old(shelf) == shelf
      requires unchanged(shelf - books[k].Repr())
      ensures forall j :: j in books && j != k ==>
              books[j].Valid() && j in old(state).books && books[j].book == old(state).books[j]
    {
      hide OrderBook.Repr, OrderBook.Valid;
      forall j | j in books && j != k ensures books[j].Valid() && books[j].book == old(state).books[j] {
        assert books[j].Repr() !! books[k].Repr() && books[j].Repr() <= shelf;
        assert unchanged(books[j].Repr());
      }
    }

    /** What the shelf says about one book. */
    lemma BookAt(k: nat)
      requires Valid() && k in books
      ensures books[k].Valid() && k in state.books && books[k].book == state.books[k]
      ensures Shelved() && Separate() && books.Keys == state.books.Keys
      ensures books[k].Repr() <= shelf && this !in shelf
      ensures (journal != null ==> journal !in books[k].Repr() && journal.Valid())
              && (risk != null ==> risk !in books[k].Repr())
      ensures IsTable(table) && sequence == state.sequence && symbols == state.symbols
    {
      hide OrderBook.Repr, OrderBook.Valid, Orderly, IsTable, JournalWriter.Valid;
    }

    /** A valid engine again, once one book has been filed under its new contents. */
    lemma Refiled(k: nat)
      requires Separate() && k in books && books.Keys == state.books.Keys
      requires forall j :: j in books && j != k ==> books[j].Valid() && books[j].book == state.books[j]
      requires books[k].Valid() && books[k].book == state.books[k]
      requires IsTable(table) && Orderly(state) && sequence == state.sequence
               && symbols == state.symbols
      requires journal != null ==> journal.Valid()
      ensures Valid()
    {
      hide OrderBook.Repr, OrderBook.Valid, Separate, IsTable, Orderly, JournalWriter.Valid;
    }

    method CancelIn(k: nat, id: nat, ghost after: State) returns (result: CancelResult)
      requires k in books && k in state.books && MayFile(after)
      requires after.books == state.books[k := Matching.Cancel(state.books[k], id).book]
      requires Valid()
      modifies this`state, books[k].Repr()
      ensures result == Matching.Cancel(old(state).books[k], id).result
      ensures Valid() && state == after && Quiet()
    {
      hide OrderBook.Valid, OrderBook.Repr, Valid, Shelved, Separate, Orderly, IsTable, JournalWriter.Valid,
           Matching.Cancel;
      BookAt(k);
      state := after;
      result := books[k].Cancel(id);
      OthersStand(k);
      Refiled(k);
    }

    method SubmitIn(k: nat, o: Order, ghost after: State)
      returns (result: SubmitResult, fills: seq<Fill>, withdrawals: seq<Withdrawal>)
      requires k in books && k in state.books && MayFile(after) && Fresh(state.books[k], o.sequence)
      requires state.books[k].instrument.WellFormed() && BookRuns.Size(state.books[k]) < NULL_HANDLE
      requires after.books == state.books[k := Matching.Submit(state.books[k], o).book]
      requires Valid()
      modifies this`state, books[k].Repr()
      ensures var e := Matching.Submit(old(state).books[k], o);
              result == e.result && fills == e.fills && withdrawals == e.withdrawals
      ensures Valid() && state == after && Quiet()
    {
      hide OrderBook.Valid, OrderBook.Repr, Valid, Shelved, Separate, Orderly, IsTable, JournalWriter.Valid,
           Fresh, Matching.Submit;
      BookAt(k);
      Facts();
      state := after;
      result, fills, withdrawals := books[k].Submit(o);
      OthersStand(k);
      Refiled(k);
    }

    method ReplaceIn(k: nat, id: nat, price: int, quantity: nat, number: nat, now: int, ghost after: State)
      returns (result: ReplaceResult, fills: seq<Fill>, withdrawals: seq<Withdrawal>)
      requires k in books && k in state.books && MayFile(after) && Fresh(state.books[k], number)
      requires state.books[k].instrument.WellFormed()
      requires after.books == state.books[k := Matching.Replace(state.books[k], id, price, quantity, number, now).book]
      requires Valid()
      modifies this`state, books[k].Repr()
      ensures var e := Matching.Replace(old(state).books[k], id, price, quantity, number, now);
              result == e.result && fills == e.fills && withdrawals == e.withdrawals
      ensures Valid() && state == after && Quiet()
    {
      hide OrderBook.Valid, OrderBook.Repr, Valid, Shelved, Separate, Orderly, IsTable, JournalWriter.Valid,
           Fresh, Matching.Replace;
      BookAt(k);
      Facts();
      state := after;
      result, fills, withdrawals := books[k].Replace(id, price, quantity, number, now);
      OthersStand(k);
      Refiled(k);
    }

    method FindIn(k: nat, id: nat) returns (found: Option<Order>)
      requires Valid() && k in books && k in state.books
      ensures Valid() && found == state.books[k].Find(id)
    {
      hide OrderBook.Valid, OrderBook.Repr, BookOk, Lookup, Orderly, IsTable, JournalWriter.Valid;
      found := books[k].Find(id);
    }

    method MakeBook(i: Instrument, hash: nat -> nat, capacity: nat) returns (book: OrderBook)
      requires Valid() && i.WellFormed()
      ensures Valid() && book.Valid() && book.book == EmptyBook(i) && fresh(book.Repr()) && book in book.Repr()
      ensures book.Repr() !! shelf && this !in book.Repr() && Attached() !! book.Repr()
    {
      hide OrderBook.Valid, OrderBook.Repr, BookOk, Orderly, IsTable, JournalWriter.Valid;
      book := new OrderBook(i, hash, capacity);
      FreshGround(book);
    }

    /** Puts a new, empty book on the shelf. */
    method Shelve(i: Instrument, hash: nat -> nat, capacity: nat, ghost after: State)
      requires Valid() && i.WellFormed() && i.id !in books && i.id !in state.books
      requires after.sequence == state.sequence && after.symbols == state.symbols[i.symbol := i.id]
      requires after.books == state.books[i.id := EmptyBook(i)] && Orderly(after)
      modifies this
      ensures Valid() && state == after && fresh(shelf - old(shelf)) && sequence == old(sequence)
    {
      hide OrderBook.Valid, OrderBook.Repr, Orderly, Valid;
      var book := MakeBook(i, hash, capacity);
      PutOnShelf(i, book, after);
    }

    method PutOnShelf(i: Instrument, book: OrderBook, ghost after: State)
      requires Valid() && i.id !in books && i.id !in state.books
      requires book.Valid() && book.book == EmptyBook(i) && book in book.Repr()
      requires book.Repr() !! shelf && this !in book.Repr() && Attached() !! book.Repr()
      requires after.sequence == state.sequence && after.symbols == state.symbols[i.symbol := i.id]
      requires after.books == state.books[i.id := book.book] && Orderly(after)
      modifies this
      ensures Valid() && state == after && shelf == old(shelf) + book.Repr() && sequence == old(sequence)
    {
      hide OrderBook.Valid, OrderBook.Repr, Valid, Shelved, Separate, BookOk, Orderly, IsTable,
           JournalWriter.Valid;
      ghost var was, ground := books, shelf;
      AllOnShelf();
      symbols := symbols[i.symbol := i.id];
      books := books[i.id := book];
      shelf := shelf + book.Repr();
      state := after;
      SeparateWith(was, ground, i.id);
      Refiled(i.id);
    }

    /** What the shelf says about every book. */
    lemma AllOnShelf()
      requires Valid()
      ensures OnOwnGround(books, shelf) && this !in shelf && Attached() !! shelf && books.Keys == state.books.Keys
      ensures forall k :: k in books ==> books[k].Valid() && books[k].book == state.books[k] && this !in books[k].Repr()
      ensures IsTable(table) && sequence == state.sequence && symbols == state.symbols
              && (journal != null ==> journal.Valid())
    {
      hide OrderBook.Repr, OrderBook.Valid, Orderly, IsTable, JournalWriter.Valid;
    }

    lemma SeparateWith(was: map<nat, OrderBook>, ground: set<object>, k: nat)
      requires k in books && k !in was && books == was[k := books[k]] && books[k] in books[k].Repr()
      requires OnOwnGround(was, ground) && shelf == ground + books[k].Repr() && books[k].Repr() !! ground
      requires this !in shelf && Attached() !! shelf
      ensures Separate()
    {
      hide OrderBook.Repr;
    }

    lemma FreshGround(book: OrderBook)
      ensures book in book.Repr()
    {
    }

    /** Makes an instrument tradable. */
    method AddInstrument(i: Instrument, now: I64, hash: nat -> nat, capacity: nat, stored: bool) returns (ok: bool)
      requires Valid() && Sane(InstrumentDefined(i)) && IsU64(sequence + 1)
      modifies this, journal
      ensures Valid() && fresh(shelf - old(shelf))
      ensures Now() == Stepped(journal != null, old(Now()), Attempt(InstrumentDefined(i), now, true, stored))
      ensures ok == (Passes(old(state), InstrumentDefined(i)) && (journal != null ==> old(journal.healthy) && stored))
    {
      hide OrderBook.Repr, OrderBook.Valid, Valid, Shelved, Separate, Orderly, Storable, Perform, Stepped,
           Defined;
      ghost var before, s := Now(), state;
      var body := InstrumentDefined(i);
      Facts();
      SteppedAs(journal != null, before, Attempt(body, now, true, stored));
      if !ValidId(i.id) || i.symbol == [] {
        return false;
      }
      if i.id in books || i.symbol in symbols {
        return false;
      }
      PerformedOrderly(s, body, now);
      Listing(s, i, now);
      ok := Enter(body, now, stored);
      if !ok {
        return;
      }
      Shelve(i, hash, capacity, Perform(s, body, now));
    }

    /** Takes an order its account has resting off its book, and off the ledger. */
    method CancelOwn(c: CancelOrder, now: I64, stored: bool) returns (outcome: Sequenced<CancelResult>)
      requires Valid() && IsU64(sequence + 1) && Passes(state, OrderCancelled(c)) && c.instrument in books
      modifies Repr()
      ensures Valid() && shelf == old(shelf)
      ensures outcome == CancelAnswer(old(state), c, Recorded(journal != null, old(Now()), stored))
      ensures Now() == Stepped(journal != null, old(Now()), Attempt(OrderCancelled(c), now, true, stored))
      ensures risk != null ==>
                risk.Now() == RiskStep(journal != null, old(risk.Now()), old(Now()),
                                       Attempt(OrderCancelled(c), now, true, stored))
    {
      hide OrderBook.Repr, OrderBook.Valid, Valid, Shelved, Separate, Orderly, Lookup, Matching.Cancel,
           Storable, Perform, Stepped, TurnedAway, Book.Find, RiskStep, RiskAfter, Withdrawn, Defined;
      ghost var before, s := Now(), state;
      var body := OrderCancelled(c);
      Facts();
      if risk != null {
        RiskSteppedAs(journal != null, risk.Now(), before, Attempt(body, now, true, stored));
      }
      SteppedAs(journal != null, before, Attempt(body, now, true, stored));
      AwayWhen(s, Attempt(body, now, true, stored));
      PerformedOrderly(s, body, now);
      PerformedAs(s, body, now);
      var ok := Enter(body, now, stored);
      outcome := Sequenced(CancelResult(Halted, None), sequence);
      if !ok {
        return;
      }
      ghost var journaled := Now().journal;
      OnShelf(c.instrument);
      var result := CancelIn(c.instrument, c.id, Perform(s, body, now));
      CancelFinds(s, c);
      if risk != null {
        CancelRisk(risk.Now(), s, c, now);
        ReleaseRisk(result.order.value);
      }
      assert Now() == Run(Perform(s, body, now), journaled, true);
      outcome := outcome.(result := result);
    }

    /** Cancellation stays open to a halted account, and only to the order's own. */
    method Cancel(c: CancelOrder, now: I64, stored: bool) returns (outcome: Sequenced<CancelResult>)
      requires Valid() && IsU64(sequence + 1)
      modifies Repr()
      ensures Valid() && shelf == old(shelf)
      ensures outcome == CancelAnswer(old(state), c, Recorded(journal != null, old(Now()), stored))
      ensures Now() == Stepped(journal != null, old(Now()), Attempt(OrderCancelled(c), now, true, stored))
      ensures risk != null ==>
                risk.Now() == RiskStep(journal != null, old(risk.Now()), old(Now()),
                                       Attempt(OrderCancelled(c), now, true, stored))
    {
      hide OrderBook.Repr, OrderBook.Valid, Valid, Shelved, Separate, Orderly, Lookup, Matching.Cancel,
           Storable, Perform, Stepped, TurnedAway, Passes, Book.Find, RiskStep, RiskAfter, Withdrawn, Defined;
      ghost var before, s := Now(), state;
      ghost var a := Attempt(OrderCancelled(c), now, true, stored);
      Facts();
      SteppedAs(journal != null, before, a);
      AwayWhen(s, a);
      if risk != null {
        RiskSteppedAs(journal != null, risk.Now(), before, a);
      }
      if c.instrument !in books {
        return Sequenced(CancelResult(UnknownInstrument, None), 0);
      }
      var resting := FindIn(c.instrument, c.id);
      if resting.None? || resting.value.account != c.account {
        return Sequenced(CancelResult(UnknownOrder, None), 0);
      }
      outcome := CancelOwn(c, now, stored);
    }

    /** An amendment of an order its account has resting: released from risk first, and recorded
        again from what the book then holds. */
    method Amend(c: ReplaceOrder, now: I64, stored: bool) returns (outcome: Sequenced<ReplaceResult>, fills: seq<Fill>)
      requires Valid() && IsU64(sequence + 1) && Passes(state, OrderReplaced(c)) && c.instrument in books
      modifies Repr()
      ensures Valid() && shelf == old(shelf)
      ensures (outcome, fills) == ReplaceAnswer(old(state), c, now, Recorded(journal != null, old(Now()), stored))
      ensures Now() == Stepped(journal != null, old(Now()), Attempt(OrderReplaced(c), now, true, stored))
      ensures risk != null ==>
                risk.Now() == RiskStep(journal != null, old(risk.Now()), old(Now()),
                                       Attempt(OrderReplaced(c), now, true, stored))
    {
      hide OrderBook.Repr, OrderBook.Valid, Valid, Shelved, Separate, Orderly, Lookup, Storable, Perform,
           Stepped, Fresh, BookOk, TurnedAway, Passes, Book.Find, RiskStep, RiskAfter, Defined, Settled, Committed,
           Withdrawn, Matching.Replace;
      ghost var before, s := Now(), state;
      var body := OrderReplaced(c);
      ghost var a := Attempt(body, now, true, stored);
      Facts();
      if risk != null {
        RiskSteppedAs(journal != null, risk.Now(), before, Attempt(body, now, true, stored));
      }
      SteppedAs(journal != null, before, a);
      AwayWhen(s, a);
      PerformedOrderly(s, body, now);
      PerformedAs(s, body, now);
      OrderlyAt(s, c.instrument);
      var resting := FindIn(c.instrument, c.id);
      var ok := Enter(body, now, stored);
      outcome, fills := Sequenced(NotReplaced(Halted), sequence), [];
      if !ok {
        return;
      }
      ghost var journaled := Now().journal;
      if risk != null {
        ReplaceRisk(risk.Now(), s, c, now);
        ReleaseRisk(resting.value);
      }
      OnShelf(c.instrument);
      var result, trades, withdrawals :=
          ReplaceIn(c.instrument, c.id, c.newPrice, c.newQuantity, sequence, now, Perform(s, body, now));
      outcome, fills := outcome.(result := result), trades;
      if risk != null {
        SettleReplace(c, resting.value, result, trades, withdrawals);
      }
      assert Now() == Run(Perform(s, body, now), journaled, true);
    }

    /** Only its own account may amend an order. */
    method Replace(c: ReplaceOrder, now: I64, stored: bool)
      returns (outcome: Sequenced<ReplaceResult>, fills: seq<Fill>)
      requires Valid() && IsU64(sequence + 1)
      modifies Repr()
      ensures Valid() && shelf == old(shelf)
      ensures (outcome, fills) == ReplaceAnswer(old(state), c, now, Recorded(journal != null, old(Now()), stored))
      ensures Now() == Stepped(journal != null, old(Now()), Attempt(OrderReplaced(c), now, true, stored))
      ensures risk != null ==>
                risk.Now() == RiskStep(journal != null, old(risk.Now()), old(Now()),
                                       Attempt(OrderReplaced(c), now, true, stored))
    {
      hide OrderBook.Repr, OrderBook.Valid, Valid, Shelved, Separate, Orderly, Lookup, Storable, Perform,
           Stepped, Fresh, BookOk, TurnedAway, Passes, Book.Find, RiskStep, RiskAfter, Defined, Settled, Committed,
           Withdrawn, Matching.Replace;
      ghost var before, s := Now(), state;
      ghost var a := Attempt(OrderReplaced(c), now, true, stored);
      Facts();
      SteppedAs(journal != null, before, a);
      AwayWhen(s, a);
      if risk != null {
        RiskSteppedAs(journal != null, risk.Now(), before, a);
      }
      if c.instrument !in books {
        return Sequenced(NotReplaced(UnknownInstrument), 0), [];
      }
      var resting := FindIn(c.instrument, c.id);
      if resting.None? || resting.value.account != c.account {
        return Sequenced(NotReplaced(UnknownOrder), 0), [];
      }
      outcome, fills := Amend(c, now, stored);
    }

    /** An admitted order: a number, the journal, the book, and what it did reported to risk. */
    method Execute(c: NewOrder, now: I64, stored: bool) returns (outcome: Sequenced<SubmitResult>, fills: seq<Fill>)
      requires Valid() && IsU64(sequence + 1) && c.instrument in books && ValidId(c.account)
      requires HasRoom(state, NewOrderEntered(c))
      modifies Repr()
      ensures Valid() && shelf == old(shelf) && Passes(old(state), NewOrderEntered(c))
      ensures (outcome, fills) ==
              SubmitAnswer(old(state), c, now, Accepted, Recorded(journal != null, old(Now()), stored))
      ensures Now() == Stepped(journal != null, old(Now()), Attempt(NewOrderEntered(c), now, true, stored))
      ensures risk != null ==>
                risk.Now() == if journal != null ==> old(journal.healthy) && stored
                              then RiskAfter(old(risk.Now()), old(state), NewOrderEntered(c), now) else old(risk.Now())
    {
      hide OrderBook.Repr, OrderBook.Valid, Valid, Shelved, Separate, Orderly, Lookup, Storable, Perform,
           Stepped, Fresh, BookOk, TurnedAway, Passes, Book.Find, RiskStep, RiskAfter, Defined, Settled, Committed,
           Matching.Submit, Check, AfterSubmit;
      ghost var before, s := Now(), state;
      var body := NewOrderEntered(c);
      ghost var a := Attempt(body, now, true, stored);
      Facts();
      SteppedAs(journal != null, before, a);
      AwayWhen(s, a);
      PerformedOrderly(s, body, now);
      PerformedAs(s, body, now);
      OrderlyAt(s, c.instrument);
      var ok := Enter(body, now, stored);
      outcome, fills := Sequenced(NotSubmitted(Halted), sequence), [];
      if !ok {
        return;
      }
      ghost var journaled := Now().journal;
      if risk != null {
        SubmitRisk(risk.Now(), s, c, now);
      }
      OnShelf(c.instrument);
      var result, trades, withdrawals := SubmitIn(c.instrument, OrderOf(c, sequence, now), Perform(s, body, now));
      outcome, fills := outcome.(result := result), trades;
      if risk != null {
        SettleSubmit(c, result, trades, withdrawals);
      }
      assert Now() == Run(Perform(s, body, now), journaled, true);
    }

    /** A new order: the kill switch and risk have their say before it gets a number. */
    method Submit(c: NewOrder, now: I64, blocked: bool, stored: bool)
      returns (outcome: Sequenced<SubmitResult>, fills: seq<Fill>)
      requires Valid() && IsU64(sequence + 1) && HasRoom(state, NewOrderEntered(c))
      modifies Repr()
      ensures Valid() && shelf == old(shelf)
      ensures var verdict := if blocked then Halted else if risk != null then Check(old(risk.Now()), c, now).0
              else Accepted;
              (outcome, fills) == SubmitAnswer(old(state), c, now, verdict,
                                               Recorded(journal != null, old(Now()), stored))
      ensures var admitted := !blocked && (risk != null ==> Check(old(risk.Now()), c, now).0 == Accepted);
              Now() == Stepped(journal != null, old(Now()), Attempt(NewOrderEntered(c), now, admitted, stored))
      ensures risk != null ==>
                risk.Now() == RiskStep(journal != null, old(risk.Now()), old(Now()),
                                       Attempt(NewOrderEntered(c), now, !blocked, stored))
    {
      hide OrderBook.Repr, OrderBook.Valid, Valid, Shelved, Separate, Orderly, Lookup, Storable, Perform,
           Stepped, Fresh, BookOk, TurnedAway, Passes, Book.Find, RiskStep, RiskAfter, Defined, Settled, Committed,
           Matching.Submit, Check, AfterSubmit;
      ghost var before, s := Now(), state;
      ghost var a := Attempt(NewOrderEntered(c), now, !blocked, stored);
      ghost var asked := if risk != null then Check(risk.Now(), c, now).0 else Accepted;
      Facts();
      SteppedAs(journal != null, before, a.(admitted := !blocked && asked == Accepted));
      AwayWhen(s, a);
      AwayWhen(s, a.(admitted := !blocked && asked == Accepted));
      if risk != null {
        RiskSteppedAs(journal != null, risk.Now(), before, a);
      }
      if c.instrument !in books || !ValidId(c.account) {
        return Sequenced(NotSubmitted(if c.instrument !in books then UnknownInstrument else UnknownOrder), 0), [];
      }
      if blocked {
        return Sequenced(NotSubmitted(Halted), 0), [];
      }
      if risk != null {
        var reject := AskRisk(c, now);
        if reject != Accepted {
          return Sequenced(NotSubmitted(reject), 0), [];
        }
      }
      assert Now() == before;
      outcome, fills := Execute(c, now, stored);
    }
  }

  /** The ledger once what is left of an order, if anything, is recorded. */
  function Booked(r: RiskState, resting: Option<Order>): RiskState {
    if resting.Some? then Committed(r, resting.value) else r
  }

  /** Whether a numbered command is recorded; without a journal nothing stands in its way. */
  predicate Recorded(journaled: bool, r: Run, stored: bool) {
    journaled ==> r.healthy && stored
  }

  function NotReplaced(reject: RejectReason): ReplaceResult { ReplaceResult(reject, false, None, 0, 0, false) }

  function NotSubmitted(reject: RejectReason): SubmitResult { SubmitResult(reject, 0, 0, false) }

  /** What the engine answers: a command turned away has no number, one that could not be
      recorded has a number and no effect, and the rest is the book's answer. */
  function CancelAnswer(s: State, c: CancelOrder, recorded: bool): Sequenced<CancelResult> {
    if !Owns(s, c.instrument, c.account, c.id) then
      Sequenced(CancelResult(if c.instrument in s.books then UnknownOrder else UnknownInstrument, None), 0)
    else if !recorded then Sequenced(CancelResult(Halted, None), s.sequence + 1)
    else Sequenced(Matching.Cancel(s.books[c.instrument], c.id).result, s.sequence + 1)
  }

  function ReplaceAnswer(s: State, c: ReplaceOrder, now: int, recorded: bool): (Sequenced<ReplaceResult>, seq<Fill>)
    requires Defined(s)
  {
    if !Owns(s, c.instrument, c.account, c.id) then
      (Sequenced(NotReplaced(if c.instrument in s.books then UnknownOrder else UnknownInstrument), 0), [])
    else if !recorded then (Sequenced(NotReplaced(Halted), s.sequence + 1), [])
    else
      var e := Matching.Replace(s.books[c.instrument], c.id, c.newPrice, c.newQuantity, s.sequence + 1, now);
      (Sequenced(e.result, s.sequence + 1), e.fills)
  }

  function SubmitAnswer(s: State, c: NewOrder, now: int, verdict: RejectReason,
                        recorded: bool): (Sequenced<SubmitResult>, seq<Fill>)
    requires Defined(s)
  {
    if c.instrument !in s.books then (Sequenced(NotSubmitted(UnknownInstrument), 0), [])
    else if !ValidId(c.account) then (Sequenced(NotSubmitted(UnknownOrder), 0), [])
    else if verdict != Accepted then (Sequenced(NotSubmitted(verdict), 0), [])
    else if !recorded then (Sequenced(NotSubmitted(Halted), s.sequence + 1), [])
    else
      var e := Matching.Submit(s.books[c.instrument], OrderOf(c, s.sequence + 1, now));
      (Sequenced(e.result, s.sequence + 1), e.fills)
  }

  /** Risk after one step: untouched by what is turned away or cannot be recorded, except for
      the budget a new order uses up by asking. */
  function RiskStep(journaled: bool, r: RiskState, run: Run, a: Attempt): RiskState
    requires Defined(run.state) && Sane(a.body)
  {
    if !Passes(run.state, a.body) || (a.body.NewOrderEntered? && !a.admitted) then r
    else
      var (ok, asked) := Verdict(r, a.body, a.now);
      if ok && (journaled ==> run.healthy && a.stored) then RiskAfter(asked, run.state, a.body, a.now) else asked
  }

  lemma RiskSteppedAs(journaled: bool, r: RiskState, run: Run, a: Attempt)
    requires Defined(run.state) && Sane(a.body)
    ensures TurnedAway(run.state, a) ==> RiskStep(journaled, r, run, a) == r
    ensures !TurnedAway(run.state, a) && !a.body.NewOrderEntered? ==>
              RiskStep(journaled, r, run, a) == if journaled ==>
                  run.healthy && a.stored then RiskAfter(r, run.state, a.body, a.now) else r
    ensures !TurnedAway(run.state, a) && a.body.NewOrderEntered? ==>
              var (reject, asked) := Check(r, a.body.order, a.now);
              RiskStep(journaled, r, run, a) ==
                if reject == Accepted && (journaled ==> run.healthy && a.stored)
                then RiskAfter(asked, run.state, a.body, a.now) else asked
  {
    hide Passes, RiskAfter, Check;
  }

  lemma CancelFinds(s: State, c: CancelOrder)
    requires Owns(s, c.instrument, c.account, c.id)
    ensures var e := Cancel(s.books[c.instrument], c.id);
            e.result.reject == Accepted && e.result.order == s.books[c.instrument].Find(c.id)
  {
  }

  lemma CancelRisk(r: RiskState, s: State, c: CancelOrder, now: int)
    requires Defined(s) && Owns(s, c.instrument, c.account, c.id)
    ensures RiskAfter(r, s, OrderCancelled(c), now) == Withdrawn(r, s.books[c.instrument].Find(c.id).value)
  {
    hide Withdrawn;
  }

  /** A step told as its three outcomes. */
  lemma SteppedAs(journaled: bool, r: Run, a: Attempt)
    requires Defined(r.state) && Sane(a.body)
    ensures TurnedAway(r.state, a) ==> Stepped(journaled, r, a) == r
    ensures !TurnedAway(r.state, a) && journaled && !(r.healthy && a.stored) ==>
              Stepped(journaled, r, a) == r.(state := r.state.(sequence := r.state.sequence + 1), healthy := false)
    ensures !TurnedAway(r.state, a) && journaled && r.healthy && a.stored ==>
              Stepped(journaled, r, a) ==
                Run(Perform(r.state, a.body, a.now), r.journal + [Record(r.state.sequence + 1, a.now, a.body)], true)
    ensures !TurnedAway(r.state, a) && !journaled ==>
            Stepped(journaled, r, a) == r.(state := Perform(r.state, a.body, a.now))
  {
    hide Perform, Passes;
  }

  lemma AwayWhen(s: State, a: Attempt)
    ensures a.body.NewOrderEntered? ==>
              (TurnedAway(s, a) <==>
                 a.body.order.instrument !in s.books || !ValidId(a.body.order.account) || !a.admitted)
    ensures a.body.OrderCancelled? ==>
              (TurnedAway(s, a) <==> !Owns(s, a.body.cancel.instrument, a.body.cancel.account, a.body.cancel.id))
    ensures a.body.OrderReplaced? ==>
              (TurnedAway(s, a) <==> !Owns(s, a.body.replace.instrument, a.body.replace.account, a.body.replace.id))
    ensures !TurnedAway(s, a) ==> Passes(s, a.body)
    ensures !a.body.NewOrderEntered? ==> (TurnedAway(s, a) <==> !Passes(s, a.body))
  {
  }

  /** What a command does to the books, by kind. */
  lemma PerformedAs(s: State, b: Body, now: int)
    requires Defined(s) && Sane(b) && Passes(s, b)
    ensures b.OrderCancelled? ==> var c := b.cancel;
              Perform(s, b, now) == State(s.sequence + 1,
                                          s.books[c.instrument := Cancel(s.books[c.instrument], c.id).book], s.symbols)
    ensures b.NewOrderEntered? ==> var o := b.order;
              Perform(s, b, now) ==
                State(s.sequence + 1, s.books[o.instrument :=
                                              Submit(s.books[o.instrument], OrderOf(o, s.sequence + 1, now)).book],
                                              s.symbols)
    ensures b.OrderReplaced? ==> var c := b.replace;
              Perform(s, b, now) ==
                State(s.sequence + 1,
                      s.books[c.instrument := Replace(s.books[c.instrument], c.id, c.newPrice, c.newQuantity,
                                                      s.sequence + 1, now).book],
                      s.symbols)
  {
    hide Cancel, Submit, Replace;
  }

  /** The step the engine takes: as the venue does, or without a journal to consult. */
  function Stepped(journaled: bool, r: Run, a: Attempt): Run
    requires Defined(r.state) && Sane(a.body)
  {
    if journaled then Venue.Live(r, a)
    else if TurnedAway(r.state, a) then r
    else r.(state := Perform(r.state, a.body, a.now))
  }

  lemma Renumbered(s: State, n: nat)
    requires Orderly(s) && n >= s.sequence
    ensures Orderly(s.(sequence := n))
  {
    hide BookOk, Fresh;
    forall k | k in s.books ensures Fresh(s.books[k], n + 1) {
      BookSteps.FreshLater(s.books[k], s.sequence + 1, n + 1);
    }
  }

  lemma Numberable(n: nat, now: I64, b: Body)
    requires IsU64(n) && Sane(b)
    ensures Storable(Record(n, now, b))
  {
  }

  lemma PerformedOrderly(s: State, b: Body, now: int)
    requires Orderly(s) && Defined(s) && Sane(b) && Passes(s, b)
    ensures var t := Perform(s, b, now); Orderly(t) && t.sequence == s.sequence + 1
  {
    hide BookOk, Fresh, Orderly, Perform;
    PerformOrderly(s, b, now);
    PerformDefined(s, b, now);
  }

  lemma OrderlyAt(s: State, k: nat)
    requires Orderly(s) && k in s.books
    ensures BookOk(s.books[k]) && Fresh(s.books[k], s.sequence + 1) && s.books[k].instrument.id == k
    ensures s.books[k].instrument.WellFormed()
  {
  }

  lemma ReplaceRisk(r: RiskState, s: State, c: ReplaceOrder, now: int)
    requires Orderly(s) && Defined(s) && Owns(s, c.instrument, c.account, c.id)
    ensures var book := s.books[c.instrument];
            var o, e := book.Find(c.id).value, Replace(book, c.id, c.newPrice, c.newQuantity, s.sequence + 1, now);
            && o.instrument == c.instrument
            && RiskAfter(r, s, OrderReplaced(c), now) ==
                 if e.result.reject != Accepted then Committed(Withdrawn(r, o), o)
                 else
                   var settled := Settled(Withdrawn(r, o), c.instrument, e.fills, e.withdrawals);
                   if e.book.Find(c.id).Some? then Committed(settled, e.book.Find(c.id).value) else settled
  {
    hide Withdrawn, Committed, Settled, Replace, BookOk, Fresh, Lookup;
    var k := BookSteps.FindLocates(s.books[c.instrument], c.id);
  }

  lemma SubmitRisk(r: RiskState, s: State, c: NewOrder, now: int)
    requires Defined(s) && c.instrument in s.books && ValidId(c.account)
    ensures var e := Submit(s.books[c.instrument], OrderOf(c, s.sequence + 1, now));
            RiskAfter(r, s, NewOrderEntered(c), now) ==
              if e.result.reject != Accepted then r
              else
                var settled := Settled(r, c.instrument, e.fills, e.withdrawals);
                if e.result.rested && e.book.Find(c.id).Some? then Committed(settled, e.book.Find(c.id).value)
                else settled
  {
    hide Committed, Settled, Submit, Lookup;
  }

  lemma Listing(s: State, i: Instrument, now: int)
    requires Defined(s) && Sane(InstrumentDefined(i)) && Passes(s, InstrumentDefined(i))
    ensures Perform(s, InstrumentDefined(i), now) ==
            State(s.sequence + 1, s.books[i.id := EmptyBook(i)], s.symbols[i.symbol := i.id])
  {
  }
}
