/** The engine as a state machine: gates, numbering, the write-ahead journal, and
    the books, with replay as its mirror. */
module Venue {
  import opened Types
  import opened Commands
  import opened Matching
  import opened BookInvariant
  import opened BookSteps
  import BookRuns
  import opened JournalRecord
  import opened JournalReader

  datatype State = State(sequence: nat, books: map<nat, Book>, symbols: map<seq<U8>, nat>)

  const NOTHING := State(0, map[], map[])

  /** The instruments a venue is set up with. */
  predicate Sane(b: Body) {
    b.InstrumentDefined? ==> StorableInstrument(b.instrument) && b.instrument.WellFormed()
  }

  predicate Defined(s: State) {
    forall k :: k in s.books ==> s.books[k].instrument.WellFormed()
  }

  /** Does the account have this order resting here? */
  predicate Owns(s: State, instrument: nat, account: nat, id: nat) {
    instrument in s.books && s.books[instrument].Find(id).Some? && s.books[instrument].Find(id).value.account == account
  }

  /** The gates that look only at the command and the books. */
  predicate Passes(s: State, b: Body) {
    match b
    case InstrumentDefined(i) => ValidId(i.id) && i.symbol != [] && i.id !in s.books && i.symbol !in s.symbols
    case NewOrderEntered(o) => o.instrument in s.books && ValidId(o.account)
    case OrderCancelled(c) => Owns(s, c.instrument, c.account, c.id)
    case OrderReplaced(c) => Owns(s, c.instrument, c.account, c.id)
  }

  /** The order as it enters the book: the venue, not the client, numbers and times it. */
  function OrderOf(o: NewOrder, sequence: nat, now: int): Order {
    Order(o.id, o.account, o.instrument, o.price, o.quantity, o.quantity, o.side, o.kind, o.tif, now, sequence,
          o.postOnly)
  }

  /** The effect of a command that has passed every gate and been recorded. */
  function Perform(s: State, b: Body, now: int): State
    requires Defined(s) && Sane(b) && Passes(s, b)
  {
    var n := s.sequence + 1;
    match b
    case InstrumentDefined(i) =>
      State(n, s.books[i.id := EmptyBook(i)], s.symbols[i.symbol := i.id])
    case NewOrderEntered(o) =>
      State(n, s.books[o.instrument := Submit(s.books[o.instrument], OrderOf(o, n, now)).book], s.symbols)
    case OrderCancelled(c) =>
      State(n, s.books[c.instrument := Cancel(s.books[c.instrument], c.id).book], s.symbols)
    case OrderReplaced(c) =>
      State(n, s.books[c.instrument := Replace(s.books[c.instrument], c.id, c.newPrice, c.newQuantity, n, now).book],
            s.symbols)
  }

  // ----- live

  /** A command with what the world decides about it: the clock, the verdict of risk and kill
      switch on new orders, and whether the journal could store it. */
  datatype Attempt = Attempt(body: Body, now: I64, admitted: bool, stored: bool)

  datatype Run = Run(state: State, journal: seq<Record>, healthy: bool)

  const START := Run(NOTHING, [], true)

  predicate TurnedAway(s: State, a: Attempt) {
    !Passes(s, a.body) || (a.body.NewOrderEntered? && !a.admitted)
  }

  /** One command at the venue: turned away without a trace, or numbered and then recorded
      before it takes effect; one that cannot be recorded has no effect. */
  function Live(r: Run, a: Attempt): Run
    requires Defined(r.state) && Sane(a.body)
  {
    if TurnedAway(r.state, a) then r
    else if !(r.healthy && a.stored) then
      r.(state := r.state.(sequence := r.state.sequence + 1), healthy := false)
    else
      Run(Perform(r.state, a.body, a.now), r.journal + [Record(r.state.sequence + 1, a.now, a.body)], true)
  }

  lemma LiveDefined(r: Run, a: Attempt)
    requires Defined(r.state) && Sane(a.body)
    ensures Defined(Live(r, a).state)
  {
    hide Submit, Replace, Cancel;
    if !TurnedAway(r.state, a) && r.healthy && a.stored {
      PerformDefined(r.state, a.body, a.now);
    }
  }

  lemma PerformDefined(s: State, b: Body, now: int)
    requires Defined(s) && Sane(b) && Passes(s, b)
    ensures Defined(Perform(s, b, now)) && Perform(s, b, now).sequence == s.sequence + 1
  {
    hide Submit, Replace, Cancel;
    match b
    case InstrumentDefined(i) =>
    case NewOrderEntered(o) =>
      BookRuns.ApplyInstrument(s.books[o.instrument], BookRuns.SubmitOrder(OrderOf(o, s.sequence + 1, now)));
    case OrderCancelled(c) =>
      BookRuns.ApplyInstrument(s.books[c.instrument], BookRuns.CancelOrder(c.id));
    case OrderReplaced(c) =>
      BookRuns.ApplyInstrument(s.books[c.instrument],
                               BookRuns.ReplaceOrder(c.id, c.newPrice, c.newQuantity, s.sequence + 1, now));
  }

  // ----- the books

  /** Every book is in order, filed under its own instrument, and older than the next number. */
  ghost predicate Orderly(s: State) {
    forall k :: k in s.books ==>
      BookOk(s.books[k]) && Fresh(s.books[k], s.sequence + 1) && s.books[k].instrument.id == k
  }

  lemma OrderlyDefined(s: State)
    requires Orderly(s)
    ensures Defined(s)
  {
  }

  /** The change a command makes to the one book it is for. */
  lemma PerformOne(s: State, b: Body, now: int)
    requires Orderly(s) && Defined(s) && Sane(b) && Passes(s, b) && !b.InstrumentDefined?
    ensures var t := Perform(s, b, now);
            && Target(b) in s.books && t.books == s.books[Target(b) := t.books[Target(b)]]
            && BookOk(t.books[Target(b)]) && Fresh(t.books[Target(b)], t.sequence + 1)
            && t.books[Target(b)].instrument == s.books[Target(b)].instrument
  {
    hide BookOk, Fresh, Submit, Cancel, Replace;
    var n, book := s.sequence + 1, s.books[Target(b)];
    var c := match b
      case NewOrderEntered(o) => BookRuns.SubmitOrder(OrderOf(o, n, now))
      case OrderCancelled(c) => BookRuns.CancelOrder(c.id)
      case OrderReplaced(c) => BookRuns.ReplaceOrder(c.id, c.newPrice, c.newQuantity, n, now);
    BookRuns.ApplyKeepsBook(book, c, n);
    BookRuns.ApplyInstrument(book, c);
    FreshLater(book, n, n + 1);
    if b.OrderCancelled? {
      FreshLater(Perform(s, b, now).books[Target(b)], n, n + 1);
    }
  }

  function Target(b: Body): nat
    requires !b.InstrumentDefined?
  {
    match b
    case NewOrderEntered(o) => o.instrument
    case OrderCancelled(c) => c.instrument
    case OrderReplaced(c) => c.instrument
  }

  lemma PerformOrderly(s: State, b: Body, now: int)
    requires Orderly(s) && Defined(s) && Sane(b) && Passes(s, b)
    ensures Orderly(Perform(s, b, now))
  {
    hide BookOk, Fresh, Submit, Cancel, Replace;
    var t := Perform(s, b, now);
    if !b.InstrumentDefined? {
      PerformOne(s, b, now);
    } else {
      NewBookOk(b.instrument, t.sequence + 1);
    }
    forall k | k in t.books
      ensures BookOk(t.books[k]) && Fresh(t.books[k], t.sequence + 1) && t.books[k].instrument.id == k
    {
      if k in s.books && t.books[k] == s.books[k] {
        FreshLater(s.books[k], s.sequence + 1, t.sequence + 1);
      }
    }
  }

  lemma NewBookOk(i: Instrument, n: nat)
    requires i.WellFormed()
    ensures BookOk(EmptyBook(i)) && Fresh(EmptyBook(i), n)
  {
  }

  /** Every reachable venue is orderly: no book of it is ever crossed. */
  lemma {:induction false} LiveOrderly(attempts: seq<Attempt>)
    requires AllSane(attempts)
    ensures Orderly(LiveAll(attempts).state)
  {
    hide Perform, BookOk, Fresh, Passes;
    if attempts != [] {
      var p, a := LiveAll(attempts[..|attempts| - 1]), attempts[|attempts| - 1];
      LiveOrderly(attempts[..|attempts| - 1]);
      StepOrderly(p, a);
    }
  }

  lemma StepOrderly(p: Run, a: Attempt)
    requires Orderly(p.state) && Defined(p.state) && Sane(a.body)
    ensures Orderly(Live(p, a).state)
  {
    hide Perform, BookOk, Fresh, Passes;
    if !TurnedAway(p.state, a) {
      if p.healthy && a.stored {
        PerformOrderly(p.state, a.body, a.now);
      } else {
        forall k | k in p.state.books ensures Fresh(p.state.books[k], p.state.sequence + 2) {
          FreshLater(p.state.books[k], p.state.sequence + 1, p.state.sequence + 2);
        }
      }
    }
  }

  predicate AllSane(attempts: seq<Attempt>) {
    forall i :: 0 <= i < |attempts| ==> Sane(attempts[i].body)
  }

  function LiveAll(attempts: seq<Attempt>): (r: Run)
    requires AllSane(attempts)
    ensures Defined(r.state)
  {
    if attempts == [] then START
    else
      var prefix := LiveAll(attempts[..|attempts| - 1]);
      LiveDefined(prefix, attempts[|attempts| - 1]);
      Live(prefix, attempts[|attempts| - 1])
  }

  /** No book holds more orders than there were commands. */
  lemma {:induction false} LiveSized(attempts: seq<Attempt>, k: nat)
    requires AllSane(attempts) && k in LiveAll(attempts).state.books
    ensures BookRuns.Size(LiveAll(attempts).state.books[k]) <= LiveAll(attempts).state.sequence
  {
    hide Perform, BookOk, Fresh, Passes;
    if attempts != [] {
      var before, a := attempts[..|attempts| - 1], attempts[|attempts| - 1];
      var p := LiveAll(before);
      LiveOrderly(before);
      if k in p.state.books {
        LiveSized(before, k);
      }
      if !TurnedAway(p.state, a) && p.healthy && a.stored {
        PerformGrows(p.state, a.body, a.now, k);
      }
    }
  }

  /** A command adds at most one order to any book, and a new book is empty. */
  lemma PerformGrows(s: State, b: Body, now: int, k: nat)
    requires Orderly(s) && Defined(s) && Sane(b) && Passes(s, b) && k in Perform(s, b, now).books
    ensures var t := Perform(s, b, now);
            && t.sequence == s.sequence + 1
            && BookRuns.Size(t.books[k]) <= (if k in s.books then BookRuns.Size(s.books[k]) else 0) + 1
  {
    hide BookOk, Fresh, Submit, Cancel, Replace;
    if !b.InstrumentDefined? {
      var n, book := s.sequence + 1, s.books[Target(b)];
      var c := match b
        case NewOrderEntered(o) => BookRuns.SubmitOrder(OrderOf(o, n, now))
        case OrderCancelled(c) => BookRuns.CancelOrder(c.id)
        case OrderReplaced(c) => BookRuns.ReplaceOrder(c.id, c.newPrice, c.newQuantity, n, now);
      BookRuns.ApplyGrows(book, c);
    }
  }

  // ----- numbering

  /** Numbering is gap-free: the journal's numbers are 1, 2, 3 and so on, up to the engine's own
      counter for as long as the journal is healthy. */
  lemma {:induction false} GapFree(attempts: seq<Attempt>)
    requires AllSane(attempts)
    ensures var r := LiveAll(attempts);
            && Consecutive(r.journal, 1) && |r.journal| <= r.state.sequence <= |attempts|
            && (r.healthy ==> |r.journal| == r.state.sequence)
            && forall i :: 0 <= i < |r.journal| ==> IsI64(r.journal[i].timestamp) && Sane(r.journal[i].body)
  {
    hide Perform;
    if attempts != [] {
      var prefix, a := attempts[..|attempts| - 1], attempts[|attempts| - 1];
      GapFree(prefix);
      var p := LiveAll(prefix);
      if !TurnedAway(p.state, a) && p.healthy && a.stored {
        PerformDefined(p.state, a.body, a.now);
      }
    }
  }

  /** Storable, as long as the count fits the sequence field. */
  lemma JournalStorable(attempts: seq<Attempt>)
    requires AllSane(attempts) && |attempts| < 0x1_0000_0000_0000_0000
    ensures AllStorable(LiveAll(attempts).journal)
  {
    hide LiveAll;
    GapFree(attempts);
  }

  // ----- replay

  /** Replays one record on an engine with no journal, no risk and no kill switch. */
  function ReplayOne(s: State, r: Record): State
    requires Defined(s) && Sane(r.body) && r.sequence >= 1
  {
    var t := s.(sequence := r.sequence - 1);
    if Passes(t, r.body) then Perform(t, r.body, r.timestamp) else t
  }

  lemma ReplayOneDefined(s: State, r: Record)
    requires Defined(s) && Sane(r.body) && r.sequence >= 1
    ensures Defined(ReplayOne(s, r))
  {
    hide Perform;
    var t := s.(sequence := r.sequence - 1);
    if Passes(t, r.body) {
      PerformDefined(t, r.body, r.timestamp);
    }
  }

  predicate Replayable(rs: seq<Record>) {
    forall i :: 0 <= i < |rs| ==> Sane(rs[i].body) && rs[i].sequence >= 1
  }

  function Replay(rs: seq<Record>): (s: State)
    requires Replayable(rs)
    ensures Defined(s)
  {
    if rs == [] then NOTHING
    else
      var prefix := Replay(rs[..|rs| - 1]);
      ReplayOneDefined(prefix, rs[|rs| - 1]);
      ReplayOne(prefix, rs[|rs| - 1])
  }

  /** Replaying the journal of any run gives the run's own books, whatever was turned away and
      whenever the journal failed; with a healthy journal it gives the whole state, and restoring
      the recorded number never changes the counter. */
  lemma {:induction false} ReplayReproduces(attempts: seq<Attempt>)
    requires AllSane(attempts)
    ensures var r := LiveAll(attempts);
            Replayable(r.journal) && Replay(r.journal) == r.state.(sequence := |r.journal|)
  {
    hide Live, Replay, Replayable;
    if attempts == [] {
      NothingReplayed();
    } else {
      var prefix := attempts[..|attempts| - 1];
      ReplayReproduces(prefix);
      GapFree(prefix);
      ReplayKeepsUp(LiveAll(prefix), attempts[|attempts| - 1]);
    }
  }

  lemma NothingReplayed()
    ensures Replayable([]) && Replay([]) == NOTHING
  {
  }

  /** Replay keeps up with one more live step. */
  lemma ReplayKeepsUp(p: Run, a: Attempt)
    requires Defined(p.state) && Sane(a.body) && (p.healthy ==> |p.journal| == p.state.sequence)
    requires Replayable(p.journal) && Replay(p.journal) == p.state.(sequence := |p.journal|)
    ensures var r := Live(p, a); Replayable(r.journal) && Replay(r.journal) == r.state.(sequence := |r.journal|)
  {
    hide Perform, Passes, TurnedAway, Live, ReplayOne, Replay;
    LiveAs(p, a);
    if !TurnedAway(p.state, a) && p.healthy && a.stored {
      var rec := Record(p.state.sequence + 1, a.now, a.body);
      PerformDefined(p.state, a.body, a.now);
      ReplayedAs(p.state, rec);
      ReplayNext(p.journal, rec);
    }
  }

  lemma ReplayNext(rs: seq<Record>, r: Record)
    requires Replayable(rs) && Sane(r.body) && r.sequence >= 1
    ensures Replayable(rs + [r]) && Replay(rs + [r]) == ReplayOne(Replay(rs), r)
  {
    hide ReplayOne;
    assert (rs + [r])[..|rs|] == rs;
  }

  /** A live step told as its three outcomes. */
  lemma LiveAs(r: Run, a: Attempt)
    requires Defined(r.state) && Sane(a.body)
    ensures TurnedAway(r.state, a) ==> Live(r, a) == r
    ensures !TurnedAway(r.state, a) && !(r.healthy && a.stored) ==>
              Live(r, a) == r.(state := r.state.(sequence := r.state.sequence + 1), healthy := false)
    ensures !TurnedAway(r.state, a) ==> Passes(r.state, a.body)
    ensures !TurnedAway(r.state, a) && r.healthy && a.stored ==>
              Live(r, a) == Run(Perform(r.state, a.body, a.now),
                                r.journal + [Record(r.state.sequence + 1, a.now, a.body)], true)
  {
    hide Perform, Passes;
  }

  lemma ReplayedAs(s: State, r: Record)
    requires Defined(s) && Sane(r.body) && Passes(s, r.body) && r.sequence == s.sequence + 1
    ensures ReplayOne(s, r) == Perform(s, r.body, r.timestamp)
  {
    hide Perform, Passes;
    assert s.(sequence := r.sequence - 1) == s;
  }

  /** Every stretch of the journal is the journal of a shorter run. */
  lemma {:induction false} JournalPrefix(attempts: seq<Attempt>, j: nat) returns (m: nat)
    requires AllSane(attempts) && j <= |LiveAll(attempts).journal|
    ensures m <= |attempts| && LiveAll(attempts[..m]).journal == LiveAll(attempts).journal[..j]
    ensures LiveAll(attempts).healthy ==> LiveAll(attempts[..m]).healthy
    ensures j == |LiveAll(attempts).journal| ==> m == |attempts|
    ensures j < |LiveAll(attempts).journal| ==>
              m < |attempts| && LiveAll(attempts[..m]).healthy && LiveAll(attempts).journal[j].body == attempts[m].body
  {
    hide Perform, Passes;
    var r := LiveAll(attempts);
    if j == |r.journal| {
      m := |attempts|;
      assert attempts[..m] == attempts && r.journal[..j] == r.journal;
    } else {
      var prefix, a := attempts[..|attempts| - 1], attempts[|attempts| - 1];
      var p := LiveAll(prefix);
      m := JournalPrefix(prefix, j);
      assert prefix[..m] == attempts[..m];
      assert r.journal[..j] == p.journal[..j];
    }
  }
}
