/** The risk ledger over whole runs of the venue. */
module RiskRuns {
  import opened Types
  import opened Matching
  import opened BookInvariant
  import opened BookSteps
  import opened JournalRecord
  import opened Slab
  import opened Venue
  import opened Amendments
  import opened Risk
  import opened RiskSettle
  import opened RiskLedger
  import opened RiskPositions

  /** The venue with its risk ledger, the instruments in the order they were listed, and every
      fill so far. */
  datatype Desk = Desk(run: Run, risk: RiskState, listed: seq<nat>, fills: seq<Fill>)

  /** How a venue is set up: the limits of its accounts, and the collars of its instruments. */
  datatype Setup = Setup(limits: AccountLimits, controls: map<nat, Controls>)

  function Opening(setup: Setup): Desk { Desk(START, RiskState(map[], setup.controls), [], []) }

  /** Accounts get their limits on first sight. */
  function Onboarded(r: RiskState, b: Body, limits: AccountLimits): RiskState {
    if b.NewOrderEntered? && b.order.account !in r.accounts then Configured(r, b.order.account, limits) else r
  }

  /** The verdict of risk on a command, and the budget spent on asking. */
  function Verdict(r: RiskState, b: Body, now: int): (bool, RiskState) {
    if b.NewOrderEntered? then var (reject, s) := Check(r, b.order, now); (reject == Accepted, s) else (true, r)
  }

  /** Risk after a command took effect on the books of `s`. */
  function RiskAfter(r: RiskState, s: State, b: Body, now: int): RiskState
    requires Defined(s) && Sane(b) && Passes(s, b)
  {
    var n := s.sequence + 1;
    match b
    case InstrumentDefined(_) => r
    case NewOrderEntered(o) => AfterSubmit(r, o.instrument, Submit(s.books[o.instrument], OrderOf(o, n, now)), o.id)
    case OrderCancelled(c) => Withdrawn(r, s.books[c.instrument].Find(c.id).value)
    case OrderReplaced(c) =>
      var book := s.books[c.instrument];
      AfterReplace(r, book.Find(c.id).value, c.id, Replace(book, c.id, c.newPrice, c.newQuantity, n, now))
  }

  /** The fills a command reports. */
  function FillsOf(s: State, b: Body, now: int): seq<Fill>
    requires Defined(s) && Sane(b) && Passes(s, b)
  {
    var n := s.sequence + 1;
    match b
    case InstrumentDefined(_) => []
    case NewOrderEntered(o) => Submit(s.books[o.instrument], OrderOf(o, n, now)).fills
    case OrderCancelled(_) => []
    case OrderReplaced(c) => Replace(s.books[c.instrument], c.id, c.newPrice, c.newQuantity, n, now).fills
  }

  predicate TakesEffect(d: Desk, setup: Setup, a: Attempt) {
    && Passes(d.run.state, a.body) && (a.body.NewOrderEntered? ==> a.admitted)
    && Verdict(Onboarded(d.risk, a.body, setup.limits), a.body, a.now).0 && d.run.healthy && a.stored
  }

  /** One command at the desk; `admitted` is the kill switch's say. */
  function Act(d: Desk, setup: Setup, a: Attempt): Desk
    requires Defined(d.run.state) && Sane(a.body)
  {
    var s, r := d.run.state, Onboarded(d.risk, a.body, setup.limits);
    if !Passes(s, a.body) || (a.body.NewOrderEntered? && !a.admitted) then d.(risk := r)
    else
      var (ok, asked) := Verdict(r, a.body, a.now);
      var run := Venue.Live(d.run, a.(admitted := ok));
      if TakesEffect(d, setup, a) then
        Desk(run, RiskAfter(asked, s, a.body, a.now),
             if a.body.InstrumentDefined? then d.listed + [a.body.instrument.id] else d.listed,
             d.fills + FillsOf(s, a.body, a.now))
      else d.(run := run, risk := asked)
  }

  function Actual(setup: Setup, attempts: seq<Attempt>): (d: Desk)
    requires AllSane(attempts)
    ensures Defined(d.run.state)
  {
    if attempts == [] then Opening(setup)
    else
      var d, a := Actual(setup, attempts[..|attempts| - 1]), attempts[|attempts| - 1];
      ActDefined(d, setup, a);
      Act(d, setup, a)
  }

  lemma ActDefined(d: Desk, setup: Setup, a: Attempt)
    requires Defined(d.run.state) && Sane(a.body)
    ensures Defined(Act(d, setup, a).run.state)
  {
    hide Venue.Live, RiskAfter, FillsOf, Verdict, Onboarded, Passes;
    LiveDefined(d.run, a.(admitted := Verdict(Onboarded(d.risk, a.body, setup.limits), a.body, a.now).0));
  }

  // ----- open orders across instruments

  function OpenTotal(books: map<nat, Book>, listed: seq<nat>, a: nat): nat {
    if listed == [] then 0
    else (if listed[0] in books then Count(books[listed[0]], a) else 0) + OpenTotal(books, listed[1..], a)
  }

  lemma {:induction false} OpenTotalUpdate(books: map<nat, Book>, listed: seq<nat>, k: nat, b: Book, a: nat)
    requires Distinct(listed) && k in books
    ensures k in listed ==>
              OpenTotal(books[k := b], listed, a) + Count(books[k], a) == OpenTotal(books, listed, a) + Count(b, a)
    ensures k in listed ==> OpenTotal(books, listed, a) >= Count(books[k], a)
    ensures k !in listed ==> OpenTotal(books[k := b], listed, a) == OpenTotal(books, listed, a)
  {
    hide Count;
    if listed != [] {
      OpenTotalUpdate(books, listed[1..], k, b, a);
      assert k in listed <==> k == listed[0] || k in listed[1..];
    }
  }

  lemma {:induction false} OpenTotalNew(books: map<nat, Book>, listed: seq<nat>, k: nat, b: Book, a: nat)
    requires k !in books && k !in listed
    ensures OpenTotal(books[k := b], listed + [k], a) == OpenTotal(books, listed, a) + Count(b, a)
  {
    hide Count;
    if listed == [] {
      assert listed + [k] == [k] && [k][1..] == [];
      assert OpenTotal(books[k := b], [], a) == 0;
    } else {
      assert (listed + [k])[1..] == listed[1..] + [k];
      OpenTotalNew(books, listed[1..], k, b, a);
    }
  }

  // ----- the ledger

  /** Every book is listed once. */
  ghost predicate Listed(d: Desk) {
    Distinct(d.listed) && forall k :: k in d.listed <==> k in d.run.state.books
  }

  /** One account's ledger: open orders are the orders on the books, and no more is recorded as
      working than rests. */
  ghost predicate Kept(d: Desk, a: nat) {
    && d.risk.OpenOrders(a) == OpenTotal(d.run.state.books, d.listed, a)
    && (forall k :: k in d.run.state.books ==> Covered(d.risk, d.run.state.books[k], a))
    && (forall k, side :: k !in d.run.state.books ==> d.risk.Working(a, k, side) == 0)
  }

  ghost predicate KeptExactly(d: Desk, a: nat) {
    forall k :: k in d.run.state.books ==> Exact(d.risk, d.run.state.books[k], a)
  }

  /** The one kind of command that would break the ledger: a post-only re-queue that crosses. */
  predicate Misplaced(s: State, b: Body) {
    b.OrderReplaced? && b.replace.instrument in s.books && s.books[b.replace.instrument].instrument.WellFormed()
    && RequeueCrosses(s.books[b.replace.instrument], b.replace.id, b.replace.newPrice, b.replace.newQuantity)
  }

  /** Does the command take liquidity for an account that also rests on its side? */
  predicate Takes(s: State, b: Body, now: int)
    requires Defined(s) && Sane(b) && Passes(s, b)
  {
    match b
    case NewOrderEntered(o) => TakesWhereItRests(s.books[o.instrument], OrderOf(o, s.sequence + 1, now))
    case OrderReplaced(c) => ReplaceTakes(s.books[c.instrument], c.id, c.newPrice, c.newQuantity, s.sequence + 1, now)
    case _ => false
  }

  /** The accounts' figures that the ledger is made of. */
  ghost predicate SameFigures(r: RiskState, s: RiskState, a: nat) {
    && s.OpenOrders(a) == r.OpenOrders(a)
    && (forall k :: s.Exposed(a, k) == r.Exposed(a, k))
    && (forall k, side :: s.Working(a, k, side) == r.Working(a, k, side))
  }

  lemma AskingChangesNothing(r: RiskState, b: Body, limits: AccountLimits, now: int, a: nat)
    ensures SameFigures(r, Onboarded(r, b, limits), a)
    ensures SameFigures(r, Verdict(Onboarded(r, b, limits), b, now).1, a)
    ensures r.accounts.Keys <= Onboarded(r, b, limits).accounts.Keys ==
            Verdict(Onboarded(r, b, limits), b, now).1.accounts.Keys
    ensures b.NewOrderEntered? ==> b.order.account in Onboarded(r, b, limits).accounts
    ensures !b.NewOrderEntered? ==> Verdict(Onboarded(r, b, limits), b, now).0
  {
    hide Within, Collar, OnTime, NextArrival;
  }

  // ----- one command

  lemma FollowsNothing(r: RiskState, b: Book, a: nat, takes: bool)
    ensures Follows(r, b, r, b, a, takes)
  {
  }

  lemma SubmitFollows(r: RiskState, b: Book, o: Order, a: nat)
    requires BookOk(b) && b.instrument.WellFormed() && Fresh(b, o.sequence) && o.remaining == o.quantity
    requires r.OpenOrders(a) >= Count(b, a)
    ensures var e := Submit(b, o);
            Follows(r, b, AfterSubmit(r, b.instrument.id, e, o.id), e.book, a, TakesWhereItRests(b, o))
  {
    hide BookOk, Fresh, Insert, Settled, Committed, Lookup, Follows, Count, RiskState.OpenOrders, TakesWhereItRests;
    assert o.(remaining := o.quantity) == o;
    InsertKeepsBook(b, o);
    if Insert(b, o).result.reject == Accepted {
      InsertFollows(r, b, o, a);
      InsertFinds(b, o);
    } else {
      FollowsNothing(r, b, a, TakesWhereItRests(b, o));
    }
  }

  /** A command that takes effect moves every account's ledger with the one book it is for. */
  lemma EffectFollows(r: RiskState, s: State, b: Body, now: int, a: nat)
    requires Orderly(s) && Defined(s) && Sane(b) && Passes(s, b) && !b.InstrumentDefined? && !Misplaced(s, b)
    requires r.OpenOrders(a) >= Count(s.books[Target(b)], a)
    ensures Follows(r, s.books[Target(b)], RiskAfter(r, s, b, now), Perform(s, b, now).books[Target(b)], a,
                    Takes(s, b, now))
  {
    hide BookOk, Fresh, Submit, Replace, Lookup, AfterSubmit, AfterReplace, Withdrawn, Follows, Count,
         RiskState.OpenOrders, TakesWhereItRests, ReplaceTakes, RequeueCrosses, RemoveOrder;
    var book, n := s.books[Target(b)], s.sequence + 1;
    match b
    case NewOrderEntered(o) => SubmitFollows(r, book, OrderOf(o, n, now), a);
    case OrderCancelled(c) => RemoveFollows(r, book, c.id, a);
    case OrderReplaced(c) => ReplaceFollows(r, book, c.id, c.newPrice, c.newQuantity, n, now, a);
  }

  /** Only the book's own instrument moves, so the other lines of the ledger stand. */
  lemma KeptByFollowing(d: Desk, d': Desk, k: nat, a: nat, takes: bool)
    requires Orderly(d.run.state) && Listed(d) && Kept(d, a) && k in d.run.state.books && k in d'.run.state.books
    requires d'.listed == d.listed && d'.run.state.books == d.run.state.books[k := d'.run.state.books[k]]
    requires Follows(d.risk, d.run.state.books[k], d'.risk, d'.run.state.books[k], a, takes)
    ensures Listed(d') && Kept(d', a)
    ensures KeptExactly(d, a) && !takes ==> KeptExactly(d', a)
  {
    hide BookOk, Fresh, Count, RiskLedger.Resting, RiskState.Working, RiskState.OpenOrders, OpenTotal;
    OpenTotalUpdate(d.run.state.books, d.listed, k, d'.run.state.books[k], a);
  }

  lemma KeptBySameFigures(d: Desk, d': Desk, a: nat)
    requires SameFigures(d.risk, d'.risk, a) && d'.listed == d.listed && d'.run.state.books == d.run.state.books
    ensures Listed(d) ==> Listed(d')
    ensures Kept(d, a) ==> Kept(d', a)
    ensures KeptExactly(d, a) ==> KeptExactly(d', a)
  {
    hide BookOk, Fresh, Count, RiskLedger.Resting, RiskState.Working, RiskState.OpenOrders, OpenTotal;
  }

  lemma KeptByListing(d: Desk, d': Desk, i: Instrument, a: nat)
    requires Listed(d) && Kept(d, a) && i.id !in d.run.state.books
    requires SameFigures(d.risk, d'.risk, a) && d'.listed == d.listed + [i.id]
    requires d'.run.state.books == d.run.state.books[i.id := EmptyBook(i)]
    ensures Listed(d') && Kept(d', a)
    ensures KeptExactly(d, a) ==> KeptExactly(d', a)
  {
    hide RiskState.Working, RiskState.OpenOrders, RiskState.Exposed, OpenTotal, Count, RiskLedger.Resting, Distinct;
    NothingRests(i, a);
    OpenTotalNew(d.run.state.books, d.listed, i.id, EmptyBook(i), a);
    ListedOnce(d.listed, i.id);
  }

  lemma NothingRests(i: Instrument, a: nat)
    ensures Count(EmptyBook(i), a) == 0 && forall side :: RiskLedger.Resting(EmptyBook(i), a, side) == 0
  {
  }

  lemma ListedOnce(listed: seq<nat>, k: nat)
    requires Distinct(listed) && k !in listed
    ensures Distinct(listed + [k])
  {
  }

  lemma ActKeeps(d: Desk, setup: Setup, at: Attempt, a: nat)
    requires Orderly(d.run.state) && Defined(d.run.state) && Sane(at.body) && Listed(d) && Kept(d, a)
    requires TakesEffect(d, setup, at) ==> !Misplaced(d.run.state, at.body)
    ensures var d' := Act(d, setup, at);
            && Listed(d') && Kept(d', a)
            && (KeptExactly(d, a) && !(TakesEffect(d, setup, at) && Takes(d.run.state, at.body, at.now)) ==>
                KeptExactly(d', a))
  {
    hide BookOk, Fresh, Perform, RiskAfter, FillsOf, Verdict, Onboarded, Passes, Kept, Listed, KeptExactly,
         SameFigures, Misplaced, Takes, Follows;
    var d' := Act(d, setup, at);
    var s := d.run.state;
    AskingChangesNothing(d.risk, at.body, setup.limits, at.now, a);
    if !TakesEffect(d, setup, at) {
      KeptBySameFigures(d, d', a);
    } else {
      var asked := Verdict(Onboarded(d.risk, at.body, setup.limits), at.body, at.now).1;
      var mid := d.(risk := asked);
      KeptBySameFigures(d, mid, a);
      if at.body.InstrumentDefined? {
        ListingPerformed(s, at.body, at.now, asked);
        SameFiguresItself(asked, a);
        KeptByListing(mid, d', at.body.instrument, a);
      } else {
        PerformOne(s, at.body, at.now);
        OpenCovers(mid, Target(at.body), a);
        EffectFollows(asked, s, at.body, at.now, a);
        KeptByFollowing(mid, d', Target(at.body), a, Takes(s, at.body, at.now));
      }
    }
  }

  lemma SameFiguresItself(r: RiskState, a: nat)
    ensures SameFigures(r, r, a)
  {
  }

  lemma ListingPerformed(s: State, b: Body, now: int, r: RiskState)
    requires Defined(s) && Sane(b) && Passes(s, b) && b.InstrumentDefined?
    ensures Perform(s, b, now).books == s.books[b.instrument.id := EmptyBook(b.instrument)]
            && b.instrument.id !in s.books
    ensures RiskAfter(r, s, b, now) == r && !Takes(s, b, now)
  {
  }

  lemma OpenCovers(d: Desk, k: nat, a: nat)
    requires Listed(d) && Kept(d, a) && k in d.run.state.books
    ensures d.risk.OpenOrders(a) >= Count(d.run.state.books[k], a)
  {
    hide Count, OpenTotal, RiskState.OpenOrders;
    OpenTotalUpdate(d.run.state.books, d.listed, k, d.run.state.books[k], a);
  }

  // ----- runs

  /** No command of the run that takes effect is a post-only re-queue that crosses. */
  predicate WellPlaced(setup: Setup, attempts: seq<Attempt>)
    requires AllSane(attempts)
  {
    attempts == [] ||
    (var prefix, a := attempts[..|attempts| - 1], attempts[|attempts| - 1];
     WellPlaced(setup, prefix) &&
     (TakesEffect(Actual(setup, prefix), setup, a) ==> !Misplaced(Actual(setup, prefix).run.state, a.body)))
  }

  /** No account takes on a side where it also rests. */
  predicate NeverTakesOwnSide(setup: Setup, attempts: seq<Attempt>)
    requires AllSane(attempts)
  {
    attempts == [] ||
    (var prefix, a := attempts[..|attempts| - 1], attempts[|attempts| - 1];
     var d := Actual(setup, prefix);
     NeverTakesOwnSide(setup, prefix) && (TakesEffect(d, setup, a) ==> !Takes(d.run.state, a.body, a.now)))
  }

  lemma ActOrderly(d: Desk, setup: Setup, a: Attempt)
    requires Orderly(d.run.state) && Defined(d.run.state) && Sane(a.body)
    ensures Orderly(Act(d, setup, a).run.state)
  {
    hide Venue.Live, RiskAfter, FillsOf, Verdict, Onboarded, Passes, Orderly;
    StepOrderly(d.run, a.(admitted := Verdict(Onboarded(d.risk, a.body, setup.limits), a.body, a.now).0));
  }

  /** Over every run without a misplaced re-queue, for every account: the open orders on the
      ledger are the orders on the books, and no more is recorded as working than rests; and
      exactly what rests is recorded, if nobody takes on a side where it also rests. */
  lemma {:induction false} LedgerKept(setup: Setup, attempts: seq<Attempt>, a: nat)
    requires AllSane(attempts) && WellPlaced(setup, attempts)
    ensures var d := Actual(setup, attempts);
            && Orderly(d.run.state) && Listed(d) && Kept(d, a)
            && (NeverTakesOwnSide(setup, attempts) ==> KeptExactly(d, a))
  {
    hide Act, BookOk, Fresh, TakesEffect, Misplaced, Takes;
    if attempts != [] {
      var prefix, at := attempts[..|attempts| - 1], attempts[|attempts| - 1];
      LedgerKept(setup, prefix, a);
      ActKeeps(Actual(setup, prefix), setup, at, a);
      ActOrderly(Actual(setup, prefix), setup, at);
    }
  }

  /** Everyone with an order on a book, or who ever traded, has an account. */
  ghost predicate AllKnown(d: Desk) {
    && PartiesKnown(d.fills, d.risk.accounts.Keys)
    && forall k :: k in d.run.state.books ==> BookAccountsIn(d.run.state.books[k], d.risk.accounts.Keys)
  }

  lemma EffectPositions(r: RiskState, s: State, b: Body, now: int, a: nat, i: nat)
    requires Orderly(s) && Defined(s) && Sane(b) && Passes(s, b) && !b.InstrumentDefined?
    requires BookAccountsIn(s.books[Target(b)], r.accounts.Keys)
             && (b.NewOrderEntered? ==> b.order.account in r.accounts)
    ensures var r' := RiskAfter(r, s, b, now);
            && r'.Exposed(a, i).net == Moved(r.Exposed(a, i).net, SignedFills(FillsOf(s, b, now), a, i))
            && r'.accounts.Keys == r.accounts.Keys
            && BookAccountsIn(Perform(s, b, now).books[Target(b)], r.accounts.Keys)
            && PartiesKnown(FillsOf(s, b, now), r.accounts.Keys)
  {
    hide BookOk, Fresh, Submit, Replace, Lookup, AfterSubmit, AfterReplace, Withdrawn, RiskState.Exposed,
         BookAccountsIn, RemoveOrder, PartiesKnown, RiskState.Working, RiskState.OpenOrders, SignedFills, Moved;
    NoPosition(a, i);
    NotMoved(r.Exposed(a, i).net);
    var book, n := s.books[Target(b)], s.sequence + 1;
    NobodyTraded(r.accounts.Keys);
    match b
    case NewOrderEntered(o) => SubmitPositions(r, book, OrderOf(o, n, now), a, i);
    case OrderCancelled(c) =>
      RemoveAccountsIn(book, c.id, r.accounts.Keys);
      WithdrawnEffect(r, book.Find(c.id).value, a, i, Buy);
    case OrderReplaced(c) => ReplacePositions(r, book, c.id, c.newPrice, c.newQuantity, n, now, a, i);
  }

  lemma {:induction false} SignedFillsConcat(f: seq<Fill>, g: seq<Fill>, a: nat, i: nat)
    ensures SignedFills(f + g, a, i) == SignedFills(f, a, i) + SignedFills(g, a, i)
  {
    hide Share;
    if g == [] {
      assert f + g == f;
    } else {
      assert (f + g)[..|f + g| - 1] == f + g[..|g| - 1];
      SignedFillsConcat(f, g[..|g| - 1], a, i);
    }
  }

  ghost predicate Positioned(d: Desk, a: nat, i: nat) {
    d.risk.Exposed(a, i).net == Moved(0, SignedFills(d.fills, a, i))
  }

  lemma KnownAfter(d: Desk, d': Desk, k: nat)
    requires AllKnown(d) && d.risk.accounts.Keys <= d'.risk.accounts.Keys && k in d'.run.state.books
    requires |d.fills| <= |d'.fills| && d'.run.state.books == d.run.state.books[k := d'.run.state.books[k]]
    requires BookAccountsIn(d'.run.state.books[k], d'.risk.accounts.Keys)
    requires d'.fills[..|d.fills|] == d.fills && PartiesKnown(d'.fills[|d.fills|..], d'.risk.accounts.Keys)
    ensures AllKnown(d')
  {
    PartiesJoined(d.fills, d'.fills[|d.fills|..], d.risk.accounts.Keys, d'.risk.accounts.Keys);
    assert d'.fills == d.fills + d'.fills[|d.fills|..];
    forall j | j in d'.run.state.books ensures BookAccountsIn(d'.run.state.books[j], d'.risk.accounts.Keys) {
      assert j != k ==> BookAccountsIn(d.run.state.books[j], d.risk.accounts.Keys);
    }
  }

  lemma PartiesJoined(f: seq<Fill>, g: seq<Fill>, known: set<nat>, more: set<nat>)
    requires PartiesKnown(f, known) && PartiesKnown(g, more) && known <= more
    ensures PartiesKnown(f + g, more)
  {
  }

  lemma KnownMore(d: Desk, d': Desk)
    requires AllKnown(d) && d.risk.accounts.Keys <= d'.risk.accounts.Keys && d'.run.state.books == d.run.state.books
    requires d'.fills == d.fills
    ensures AllKnown(d')
  {
    forall j | j in d'.run.state.books ensures BookAccountsIn(d'.run.state.books[j], d'.risk.accounts.Keys) {
      assert BookAccountsIn(d.run.state.books[j], d.risk.accounts.Keys);
    }
  }

  lemma ActPositions(d: Desk, setup: Setup, at: Attempt, a: nat, i: nat)
    requires Orderly(d.run.state) && Defined(d.run.state) && Sane(at.body) && AllKnown(d) && Positioned(d, a, i)
    ensures var d' := Act(d, setup, at); AllKnown(d') && Positioned(d', a, i)
  {
    hide BookOk, Fresh, Perform, RiskAfter, FillsOf, Verdict, Onboarded, Passes, SignedFills, AllKnown,
         RiskState.Exposed, BookAccountsIn, PartiesKnown, Moved;
    var d', s := Act(d, setup, at), d.run.state;
    AskingChangesNothing(d.risk, at.body, setup.limits, at.now, a);
    var asked := Verdict(Onboarded(d.risk, at.body, setup.limits), at.body, at.now).1;
    if !TakesEffect(d, setup, at) {
      KnownMore(d, d');
    } else {
      SignedFillsConcat(d.fills, FillsOf(s, at.body, at.now), a, i);
      MovedTwice(0, SignedFills(d.fills, a, i), SignedFills(FillsOf(s, at.body, at.now), a, i));
      assert d'.fills[|d.fills|..] == FillsOf(s, at.body, at.now);
      NobodyTraded(d'.risk.accounts.Keys);
      var mid := d.(risk := asked);
      KnownMore(d, mid);
      if at.body.InstrumentDefined? {
        ListingPerformed(s, at.body, at.now, asked);
        ListingFills(s, at.body, at.now, a, i);
        EmptyAccountsIn(at.body.instrument, asked.accounts.Keys);
        KnownAfter(mid, d', at.body.instrument.id);
      } else {
        PerformOne(s, at.body, at.now);
        KnownHere(mid, Target(at.body));
        EffectPositions(asked, s, at.body, at.now, a, i);
        KnownAfter(mid, d', Target(at.body));
      }
    }
  }

  lemma KnownHere(d: Desk, k: nat)
    requires AllKnown(d) && k in d.run.state.books
    ensures BookAccountsIn(d.run.state.books[k], d.risk.accounts.Keys)
  {
  }

  lemma EmptyAccountsIn(i: Instrument, accounts: set<nat>)
    ensures BookAccountsIn(EmptyBook(i), accounts)
  {
  }

  lemma ListingFills(s: State, b: Body, now: int, a: nat, i: nat)
    requires Defined(s) && Sane(b) && Passes(s, b) && b.InstrumentDefined?
    ensures FillsOf(s, b, now) == [] && SignedFills([], a, i) == 0
  {
  }

  /** Over every run, every account's net position is what its fills add up to, cut to 64 bits: it is
      the sum itself exactly where that fits. */
  lemma {:induction false} PositionsKept(setup: Setup, attempts: seq<Attempt>, a: nat, i: nat)
    requires AllSane(attempts)
    ensures var d := Actual(setup, attempts);
            && Orderly(d.run.state) && AllKnown(d)
            && d.risk.Exposed(a, i).net == AsSigned(SignedFills(d.fills, a, i))
            && (d.risk.Exposed(a, i).net == SignedFills(d.fills, a, i) <==>
                -TWO63 <= SignedFills(d.fills, a, i) < TWO63)
  {
    hide Act, BookOk, Fresh, RiskState.Exposed, AsSigned;
    if attempts == [] {
      NothingHeld(setup, a, i);
    } else {
      var prefix, at := attempts[..|attempts| - 1], attempts[|attempts| - 1];
      PositionsKept(setup, prefix, a, i);
      ActPositions(Actual(setup, prefix), setup, at, a, i);
      ActOrderly(Actual(setup, prefix), setup, at);
    }
    SignedLaps(SignedFills(Actual(setup, attempts).fills, a, i));
  }

  lemma NothingHeld(setup: Setup, a: nat, i: nat)
    ensures Opening(setup).risk.Exposed(a, i).net == 0 == AsSigned(0)
  {
  }

  // ----- positions sum to zero

  /** What a set of accounts holds together. */
  function TotalHeld(fills: seq<Fill>, accounts: seq<nat>, i: nat): int {
    if accounts == [] then 0 else SignedFills(fills, accounts[0], i) + TotalHeld(fills, accounts[1..], i)
  }

  function SharedOut(f: Fill, accounts: seq<nat>): int {
    if accounts == [] then 0 else Share(f, accounts[0]) + SharedOut(f, accounts[1..])
  }

  lemma {:induction false} SharesCancel(f: Fill, accounts: seq<nat>)
    requires Distinct(accounts)
    ensures SharedOut(f, accounts) ==
            (if Buyer(f) in accounts then f.quantity else 0) - (if Seller(f) in accounts then f.quantity else 0)
  {
    hide Buyer, Seller;
    if accounts != [] {
      SharesCancel(f, accounts[1..]);
      assert Buyer(f) in accounts <==> Buyer(f) == accounts[0] || Buyer(f) in accounts[1..];
      assert Seller(f) in accounts <==> Seller(f) == accounts[0] || Seller(f) in accounts[1..];
      assert accounts[0] !in accounts[1..];
    }
  }

  lemma {:induction false} TotalHeldNext(fills: seq<Fill>, f: Fill, accounts: seq<nat>, i: nat)
    ensures TotalHeld(fills + [f], accounts, i) == TotalHeld(fills, accounts, i) + if f.instrument == i
            then SharedOut(f, accounts) else 0
  {
    hide Share;
    if accounts != [] {
      assert (fills + [f])[..|fills|] == fills;
      TotalHeldNext(fills, f, accounts[1..], i);
    }
  }

  /** Nothing is made or lost in trading: over all the accounts that ever traded, the positions
      on an instrument add up to zero. */
  lemma {:induction false} PositionsSumToZero(fills: seq<Fill>, accounts: seq<nat>, i: nat)
    requires Distinct(accounts)
    requires forall j :: 0 <= j < |fills| ==>
             fills[j].aggressorAccount in accounts && fills[j].restingAccount in accounts
    ensures TotalHeld(fills, accounts, i) == 0
  {
    if fills == [] {
      NothingTraded(accounts, i);
    } else {
      var n := |fills| - 1;
      PositionsSumToZero(fills[..n], accounts, i);
      assert fills == fills[..n] + [fills[n]];
      TotalHeldNext(fills[..n], fills[n], accounts, i);
      SharesCancel(fills[n], accounts);
    }
  }

  lemma {:induction false} NothingTraded(accounts: seq<nat>, i: nat)
    ensures TotalHeld([], accounts, i) == 0
  {
    if accounts != [] {
      NothingTraded(accounts[1..], i);
    }
  }

  /** What the ledger says a list of accounts holds. */
  function LedgerHeld(r: RiskState, accounts: seq<nat>, i: nat): int {
    if accounts == [] then 0 else r.Exposed(accounts[0], i).net + LedgerHeld(r, accounts[1..], i)
  }

  /** How often the positions of a list of accounts were cut, long ones against short ones. */
  function LapsHeld(fills: seq<Fill>, accounts: seq<nat>, i: nat): int {
    if accounts == [] then 0 else Laps(SignedFills(fills, accounts[0], i)) + LapsHeld(fills, accounts[1..], i)
  }

  /** At every moment of every run, the net positions on the ledger add up to zero but for what was
      cut off them; to zero itself exactly where the cuts cancel out. */
  lemma LedgerSumsToZero(setup: Setup, attempts: seq<Attempt>, accounts: seq<nat>, i: nat)
    requires AllSane(attempts) && Distinct(accounts)
    requires forall a :: a in Actual(setup, attempts).risk.accounts ==> a in accounts
    ensures var d := Actual(setup, attempts);
            && LedgerHeld(d.risk, accounts, i) == -TWO64 * LapsHeld(d.fills, accounts, i)
            && (LedgerHeld(d.risk, accounts, i) == 0 <==> LapsHeld(d.fills, accounts, i) == 0)
            && ((forall a :: a in accounts ==> -TWO63 <= SignedFills(d.fills, a, i) < TWO63) ==>
                  LedgerHeld(d.risk, accounts, i) == 0)
  {
    hide Actual, BookOk, Fresh, SignedFills;
    var d := Actual(setup, attempts);
    PositionsKept(setup, attempts, 0, i);
    PositionsSumToZero(d.fills, accounts, i);
    LedgerIsFills(setup, attempts, accounts, i);
    if forall a :: a in accounts ==> -TWO63 <= SignedFills(d.fills, a, i) < TWO63 {
      NothingCut(d.fills, accounts, i);
    }
  }

  lemma {:induction false} NothingCut(fills: seq<Fill>, accounts: seq<nat>, i: nat)
    requires forall a :: a in accounts ==> -TWO63 <= SignedFills(fills, a, i) < TWO63
    ensures LapsHeld(fills, accounts, i) == 0
  {
    hide SignedFills;
    if accounts != [] {
      NothingCut(fills, accounts[1..], i);
    }
  }

  lemma {:induction false} LedgerIsFills(setup: Setup, attempts: seq<Attempt>, accounts: seq<nat>, i: nat)
    requires AllSane(attempts)
    ensures var d := Actual(setup, attempts);
            LedgerHeld(d.risk, accounts, i) ==
            TotalHeld(d.fills, accounts, i) - TWO64 * LapsHeld(d.fills, accounts, i)
    decreases accounts
  {
    hide Actual, RiskState.Exposed, SignedFills, BookOk, Fresh, AsSigned, Laps;
    if accounts != [] {
      PositionsKept(setup, attempts, accounts[0], i);
      LedgerIsFills(setup, attempts, accounts[1..], i);
      SignedLaps(SignedFills(Actual(setup, attempts).fills, accounts[0], i));
    }
  }

  /** Such a ledger: account 7 bought 2^62 from account 8 twice, and both are recorded 2^63 short. */
  lemma BothShort(limits: AccountLimits)
    ensures var r := Configured(Configured(RiskState(map[], map[]), 7, limits), 8, limits);
            var f := Fill(1, 1, 1, 0x4000_0000_0000_0000, 2, 1, 7, 8, Buy, true, 0);
            var s := SettleFills(r, [f, f]);
            s.Exposed(7, 1).net == -TWO63 == s.Exposed(8, 1).net
  {
    hide SettleFills, AsSigned, Configured, RiskState.Exposed;
    var q := 0x4000_0000_0000_0000;
    var r := Configured(Configured(RiskState(map[], map[]), 7, limits), 8, limits);
    var f := Fill(1, 1, 1, q, 2, 1, 7, 8, Buy, true, 0);
    NewcomersFlat(limits);
    assert [f, f] == [f] + [f];
    SignedFillsConcat([f], [f], 7, 1);
    SignedFillsConcat([f], [f], 8, 1);
    assert [f][..0] == [];
    SettleFillsNet(r, [f, f], 7, 1);
    SettleFillsNet(r, [f, f], 8, 1);
    SignedTurned(-q - q, 1);
    SignedLaps(-q - q);
  }

  lemma NewcomersFlat(limits: AccountLimits)
    ensures var r := Configured(Configured(RiskState(map[], map[]), 7, limits), 8, limits);
            7 in r.accounts && 8 in r.accounts && r.Exposed(7, 1).net == 0 == r.Exposed(8, 1).net
  {
  }
}
