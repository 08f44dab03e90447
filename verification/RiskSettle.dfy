/** What settling a command does to every account, as a sum over its reports. */
module RiskSettle {
  import opened Types
  import opened Matching
  import opened Risk

  // ----- sums over reports

  function TakenFrom(fills: seq<Fill>, a: nat): nat {
    if fills == [] then 0
    else
      var f := fills[|fills| - 1];
      TakenFrom(fills[..|fills| - 1], a) + if f.restingAccount == a then f.quantity else 0
  }

  function EmptiedOf(fills: seq<Fill>, a: nat): nat {
    if fills == [] then 0
    else
      var f := fills[|fills| - 1];
      EmptiedOf(fills[..|fills| - 1], a) + if f.restingAccount == a && f.restingFilled then 1 else 0
  }

  function WithdrawnFrom(ws: seq<Withdrawal>, a: nat): nat {
    if ws == [] then 0
    else
      var w := ws[|ws| - 1];
      WithdrawnFrom(ws[..|ws| - 1], a) + if w.account == a then w.quantity else 0
  }

  function RemovedOf(ws: seq<Withdrawal>, a: nat): nat {
    if ws == [] then 0
    else
      var w := ws[|ws| - 1];
      RemovedOf(ws[..|ws| - 1], a) + if w.account == a && w.fullyRemoved then 1 else 0
  }

  /** Bought less sold on an instrument, over both sides of every fill. */
  function SignedFills(fills: seq<Fill>, a: nat, instrument: nat): int {
    if fills == [] then 0
    else
      var f := fills[|fills| - 1];
      SignedFills(fills[..|fills| - 1], a, instrument) + if f.instrument == instrument then Share(f, a) else 0
  }

  function Buyer(f: Fill): nat { if f.aggressorSide.Buy? then f.aggressorAccount else f.restingAccount }

  function Seller(f: Fill): nat { if f.aggressorSide.Buy? then f.restingAccount else f.aggressorAccount }

  /** What a trade adds to an account's holding: its quantity to the buyer's, taken from the seller's. */
  function Share(f: Fill, a: nat): int {
    (if Buyer(f) == a then f.quantity else 0) - (if Seller(f) == a then f.quantity else 0)
  }

  // ----- settling, report by report

  function SettleFills(r: RiskState, fills: seq<Fill>): RiskState {
    if fills == [] then r
    else
      var f := fills[|fills| - 1];
      var s := Filled(SettleFills(r, fills[..|fills| - 1]), f);
      if f.restingFilled then Closed(s, f.restingAccount) else s
  }

  function SettleWithdrawals(r: RiskState, ws: seq<Withdrawal>): RiskState {
    if ws == [] then r
    else
      var w := ws[|ws| - 1];
      var s := Released(SettleWithdrawals(r, ws[..|ws| - 1]), w.account, w.instrument, w.side, w.quantity);
      if w.fullyRemoved then Closed(s, w.account) else s
  }

  function Settled(r: RiskState, instrument: nat, fills: seq<Fill>, ws: seq<Withdrawal>): RiskState {
    var s := SettleWithdrawals(SettleFills(r, fills), ws);
    if fills == [] then s else Referenced(s, instrument, fills[|fills| - 1].price)
  }

  /** Subtraction that stops at nothing. */
  function Drop(n: nat, k: nat): nat { n - Min(n, k) }

  // ----- one report at a time

  lemma ExposureEffect(r: RiskState, account: nat, instrument: nat, e: Exposure, a: nat, i: nat)
    requires account in r.accounts
    ensures var s := r.WithExposure(account, instrument, e);
            && s.accounts.Keys == r.accounts.Keys && s.OpenOrders(a) == r.OpenOrders(a)
            && s.Exposed(a, i) == if a == account && i == instrument then e else r.Exposed(a, i)
  {
    if a == account {
      assert r.WithExposure(account, instrument, e).accounts[a].On(i) == if i == instrument then e
             else r.accounts[a].On(i);
    }
  }

  lemma TradedEffect(r: RiskState, account: nat, instrument: nat, side: Side, quantity: nat, a: nat, i: nat, d: Side)
    ensures var s := Traded(r, account, instrument, side, quantity);
            && s.accounts.Keys == r.accounts.Keys
            && s.OpenOrders(a) == r.OpenOrders(a)
            && s.Working(a, i, d) == Drop(r.Working(a, i, d), if a == account && i == instrument && d == side
                                          then quantity else 0)
            && (account in r.accounts ==>
                  s.Exposed(a, i).net == Moved(r.Exposed(a, i).net,
                    if a == account && i == instrument then (if side.Buy? then quantity else -(quantity as int))
                    else 0))
  {
    hide RiskState.WithExposure, RiskState.OpenOrders, Moved;
    NotMoved(r.Exposed(a, i).net);
    if account in r.accounts {
      ExposureEffect(r, account, instrument, r.accounts[account].On(instrument).Traded(side, quantity), a, i);
    }
  }

  lemma FilledEffect(r: RiskState, f: Fill, a: nat, i: nat, d: Side)
    ensures var s := Filled(r, f);
            && s.accounts.Keys == r.accounts.Keys
            && s.OpenOrders(a) == r.OpenOrders(a)
            && s.Working(a, i, d) ==
                 Drop(r.Working(a, i, d),
                      if i != f.instrument then 0
                      else if d == f.aggressorSide then (if a == f.aggressorAccount then f.quantity else 0)
                      else if a == f.restingAccount then f.quantity else 0)
  {
    hide Traded, RiskState.Working, RiskState.Exposed, RiskState.OpenOrders, Moved;
    TradedEffect(r, f.aggressorAccount, f.instrument, f.aggressorSide, f.quantity, a, i, d);
    var t := Traded(r, f.aggressorAccount, f.instrument, f.aggressorSide, f.quantity);
    TradedEffect(t, f.restingAccount, f.instrument, f.aggressorSide.Opposite(), f.quantity, a, i, d);
  }

  lemma FilledNet(r: RiskState, f: Fill, a: nat, i: nat)
    requires f.aggressorAccount in r.accounts && f.restingAccount in r.accounts
    ensures Filled(r, f).Exposed(a, i).net == Moved(r.Exposed(a, i).net, if i == f.instrument then Share(f, a) else 0)
  {
    hide Traded, RiskState.Working, RiskState.Exposed, RiskState.OpenOrders, Moved, Drop;
    TradedEffect(r, f.aggressorAccount, f.instrument, f.aggressorSide, f.quantity, a, i, Buy);
    var t := Traded(r, f.aggressorAccount, f.instrument, f.aggressorSide, f.quantity);
    TradedEffect(t, f.restingAccount, f.instrument, f.aggressorSide.Opposite(), f.quantity, a, i, Buy);
    var q: int := f.quantity;
    var first := if a != f.aggressorAccount || i != f.instrument then 0 else if f.aggressorSide.Buy? then q else -q;
    var second := if a != f.restingAccount || i != f.instrument then 0 else if f.aggressorSide.Buy? then -q else q;
    assert first + second == if i == f.instrument then Share(f, a) else 0;
    MovedTwice(r.Exposed(a, i).net, first, second);
  }

  lemma ClosedEffect(r: RiskState, account: nat, a: nat, i: nat)
    ensures var s := Closed(r, account);
            && s.accounts.Keys == r.accounts.Keys
            && s.OpenOrders(a) == Drop(r.OpenOrders(a), if a == account then 1 else 0)
            && s.Exposed(a, i) == r.Exposed(a, i)
  {
  }

  lemma ReleasedEffect(r: RiskState, account: nat, instrument: nat, side: Side, quantity: nat, a: nat, i: nat, d: Side)
    ensures var s := Released(r, account, instrument, side, quantity);
            && s.accounts.Keys == r.accounts.Keys
            && s.OpenOrders(a) == r.OpenOrders(a)
            && s.Working(a, i, d) == Drop(r.Working(a, i, d), if a == account && i == instrument && d == side
                                          then quantity else 0)
            && s.Exposed(a, i).net == r.Exposed(a, i).net
  {
    hide RiskState.WithExposure, RiskState.OpenOrders;
    if account in r.accounts && instrument in r.accounts[account].exposure {
      ExposureEffect(r, account, instrument, r.accounts[account].exposure[instrument].Released(side, quantity), a, i);
    }
  }

  lemma CommittedEffect(r: RiskState, o: Order, a: nat, i: nat, d: Side)
    ensures var s := Committed(r, o);
            && s.accounts.Keys == r.accounts.Keys + {o.account}
            && s.OpenOrders(a) == r.OpenOrders(a) + (if a == o.account then 1 else 0)
            && s.Working(a, i, d) == r.Working(a, i, d)
            + (if a == o.account && i == o.instrument && d == o.side then o.remaining else 0)
            && s.Exposed(a, i).net == r.Exposed(a, i).net
  {
  }

  lemma ReferencedEffect(r: RiskState, instrument: nat, price: int, a: nat, i: nat)
    ensures var s := Referenced(r, instrument, price);
            && s.accounts == r.accounts && s.OpenOrders(a) == r.OpenOrders(a) && s.Exposed(a, i) == r.Exposed(a, i)
            && forall d :: s.Working(a, i, d) == r.Working(a, i, d)
  {
  }

  // ----- all the reports of one command

  /** The reports of one aggressor on one instrument. */
  predicate OfOne(fills: seq<Fill>, account: nat, side: Side, instrument: nat) {
    forall j :: 0 <= j < |fills| ==>
      fills[j].aggressorAccount == account && fills[j].aggressorSide == side && fills[j].instrument == instrument
  }

  predicate WithdrawnOn(ws: seq<Withdrawal>, side: Side, instrument: nat) {
    forall j :: 0 <= j < |ws| ==> ws[j].side == side && ws[j].instrument == instrument
  }

  /** Every party to the fills has an account. */
  ghost predicate PartiesKnown(fills: seq<Fill>, accounts: set<nat>) {
    forall j :: 0 <= j < |fills| ==> fills[j].aggressorAccount in accounts && fills[j].restingAccount in accounts
  }

  lemma {:induction false} SettleFillsEffect(r: RiskState, fills: seq<Fill>, account: nat, side: Side, instrument: nat,
                                             a: nat, i: nat)
    requires OfOne(fills, account, side, instrument)
    ensures var s := SettleFills(r, fills);
            && s.accounts.Keys == r.accounts.Keys
            && s.OpenOrders(a) == Drop(r.OpenOrders(a), EmptiedOf(fills, a))
            && s.Working(a, i, side) ==
               Drop(r.Working(a, i, side), if a == account && i == instrument then FillTotal(fills) else 0)
            && s.Working(a, i, side.Opposite()) ==
               Drop(r.Working(a, i, side.Opposite()), if i == instrument then TakenFrom(fills, a) else 0)
  {
    hide Filled, Closed, RiskState.Working, RiskState.OpenOrders, Drop;
    DropNothing(r.OpenOrders(a));
    DropNothing(r.Working(a, i, side));
    DropNothing(r.Working(a, i, side.Opposite()));
    if fills != [] {
      var n, f := |fills| - 1, fills[|fills| - 1];
      SettleFillsEffect(r, fills[..n], account, side, instrument, a, i);
      SettledFill(SettleFills(r, fills[..n]), f, account, side, instrument, a, i);
      DropTwice(r.OpenOrders(a), EmptiedOf(fills[..n], a), if f.restingAccount == a && f.restingFilled then 1 else 0);
      DropTwice(r.Working(a, i, side), if a == account && i == instrument then FillTotal(fills[..n]) else 0,
                if a == account && i == instrument then f.quantity else 0);
      DropTwice(r.Working(a, i, side.Opposite()), if i == instrument then TakenFrom(fills[..n], a) else 0,
                if i == instrument && f.restingAccount == a then f.quantity else 0);
    }
  }

  lemma DropNothing(n: nat)
    ensures Drop(n, 0) == n
  {
  }

  lemma DropTwice(n: nat, j: nat, k: nat)
    ensures Drop(Drop(n, j), k) == Drop(n, j + k)
  {
  }

  lemma SettledFill(p: RiskState, f: Fill, account: nat, side: Side, instrument: nat, a: nat, i: nat)
    requires f.aggressorAccount == account && f.aggressorSide == side && f.instrument == instrument
    ensures var s := if f.restingFilled then Closed(Filled(p, f), f.restingAccount) else Filled(p, f);
            && s.accounts.Keys == p.accounts.Keys
            && s.OpenOrders(a) == Drop(p.OpenOrders(a), if f.restingAccount == a && f.restingFilled then 1 else 0)
            && s.Working(a, i, side) ==
               Drop(p.Working(a, i, side), if a == account && i == instrument then f.quantity else 0)
            && s.Working(a, i, side.Opposite()) ==
                 Drop(p.Working(a, i, side.Opposite()), if i == instrument && f.restingAccount == a then f.quantity
                      else 0)
  {
    hide Filled, Closed, RiskState.Exposed, RiskState.OpenOrders;
    FilledEffect(p, f, a, i, side);
    FilledEffect(p, f, a, i, side.Opposite());
    ClosedEffect(Filled(p, f), f.restingAccount, a, i);
  }

  lemma {:induction false} SettleFillsNet(r: RiskState, fills: seq<Fill>, a: nat, i: nat)
    requires PartiesKnown(fills, r.accounts.Keys)
    ensures var s := SettleFills(r, fills);
            && s.accounts.Keys == r.accounts.Keys
            && s.Exposed(a, i).net == Moved(r.Exposed(a, i).net, SignedFills(fills, a, i))
  {
    hide Filled, Closed, RiskState.Exposed, RiskState.OpenOrders, Share, Moved;
    NotMoved(r.Exposed(a, i).net);
    if fills != [] {
      var n, f := |fills| - 1, fills[|fills| - 1];
      SettleFillsNet(r, fills[..n], a, i);
      var p := SettleFills(r, fills[..n]);
      FilledEffect(p, f, a, i, Buy);
      FilledNet(p, f, a, i);
      ClosedEffect(Filled(p, f), f.restingAccount, a, i);
      MovedTwice(r.Exposed(a, i).net, SignedFills(fills[..n], a, i), if f.instrument == i then Share(f, a) else 0);
    }
  }

  lemma {:induction false} SettleWithdrawalsEffect(r: RiskState, ws: seq<Withdrawal>, side: Side, instrument: nat,
                                                   a: nat, i: nat)
    requires WithdrawnOn(ws, side, instrument)
    ensures var s := SettleWithdrawals(r, ws);
            && s.accounts.Keys == r.accounts.Keys
            && s.OpenOrders(a) == Drop(r.OpenOrders(a), RemovedOf(ws, a))
            && s.Working(a, i, side.Opposite()) == r.Working(a, i, side.Opposite())
            && s.Working(a, i, side) == Drop(r.Working(a, i, side), if i == instrument then WithdrawnFrom(ws, a) else 0)
            && s.Exposed(a, i).net == r.Exposed(a, i).net
  {
    hide Released, Closed, RiskState.Working, RiskState.Exposed, RiskState.OpenOrders, Drop;
    DropNothing(r.OpenOrders(a));
    DropNothing(r.Working(a, i, side));
    if ws != [] {
      var n, w := |ws| - 1, ws[|ws| - 1];
      SettleWithdrawalsEffect(r, ws[..n], side, instrument, a, i);
      SettledWithdrawal(SettleWithdrawals(r, ws[..n]), w, side, instrument, a, i);
      DropTwice(r.OpenOrders(a), RemovedOf(ws[..n], a), if w.account == a && w.fullyRemoved then 1 else 0);
      DropTwice(r.Working(a, i, side), if i == instrument then WithdrawnFrom(ws[..n], a) else 0,
                if i == instrument && w.account == a then w.quantity else 0);
    }
  }

  lemma SettledWithdrawal(p: RiskState, w: Withdrawal, side: Side, instrument: nat, a: nat, i: nat)
    requires w.side == side && w.instrument == instrument
    ensures var t := Released(p, w.account, w.instrument, w.side, w.quantity);
            var s := if w.fullyRemoved then Closed(t, w.account) else t;
            && s.accounts.Keys == p.accounts.Keys
            && s.OpenOrders(a) == Drop(p.OpenOrders(a), if w.account == a && w.fullyRemoved then 1 else 0)
            && s.Working(a, i, side.Opposite()) == p.Working(a, i, side.Opposite())
            && s.Working(a, i, side) ==
               Drop(p.Working(a, i, side), if i == instrument && w.account == a then w.quantity else 0)
            && s.Exposed(a, i).net == p.Exposed(a, i).net
  {
    hide Released, Closed, RiskState.Exposed, RiskState.OpenOrders;
    ReleasedEffect(p, w.account, w.instrument, w.side, w.quantity, a, i, side);
    ReleasedEffect(p, w.account, w.instrument, w.side, w.quantity, a, i, side.Opposite());
    ClosedEffect(Released(p, w.account, w.instrument, w.side, w.quantity), w.account, a, i);
  }

  /** Settling one command, for any account and instrument: its open orders fall by those that
      left the book; its working quantity falls by what was taken and withdrawn from it on the
      passive side, and by what it took itself on the aggressive side. */
  lemma SettledEffect(r: RiskState, fills: seq<Fill>, ws: seq<Withdrawal>, account: nat, side: Side, instrument: nat,
                      a: nat, i: nat)
    requires OfOne(fills, account, side, instrument) && WithdrawnOn(ws, side.Opposite(), instrument)
    ensures var s := Settled(r, instrument, fills, ws);
            && s.accounts.Keys == r.accounts.Keys
            && s.OpenOrders(a) == Drop(r.OpenOrders(a), EmptiedOf(fills, a) + RemovedOf(ws, a))
            && s.Working(a, i, side) ==
               Drop(r.Working(a, i, side), if a == account && i == instrument then FillTotal(fills) else 0)
            && s.Working(a, i, side.Opposite()) ==
                 Drop(r.Working(a, i, side.Opposite()), if i == instrument
                      then TakenFrom(fills, a) + WithdrawnFrom(ws, a) else 0)
  {
    hide SettleFills, SettleWithdrawals, Referenced, RiskState.Working, RiskState.OpenOrders, EmptiedOf, RemovedOf,
         TakenFrom, WithdrawnFrom;
    if fills != [] {
      ReferencedEffect(SettleWithdrawals(SettleFills(r, fills), ws), instrument, fills[|fills| - 1].price, a, i);
    }
    SettleFillsEffect(r, fills, account, side, instrument, a, i);
    SettleWithdrawalsEffect(SettleFills(r, fills), ws, side.Opposite(), instrument, a, i);
  }

  /** And what it holds moves by what it bought and sold. */
  lemma SettledNet(r: RiskState, fills: seq<Fill>, ws: seq<Withdrawal>, side: Side, instrument: nat, a: nat, i: nat)
    requires PartiesKnown(fills, r.accounts.Keys) && WithdrawnOn(ws, side, instrument)
    ensures Settled(r, instrument, fills, ws).Exposed(a, i).net ==
            Moved(r.Exposed(a, i).net, SignedFills(fills, a, i))
  {
    hide SettleFills, SettleWithdrawals, Referenced, RiskState.Exposed, SignedFills, Moved;
    if fills != [] {
      ReferencedEffect(SettleWithdrawals(SettleFills(r, fills), ws), instrument, fills[|fills| - 1].price, a, i);
    }
    SettleFillsNet(r, fills, a, i);
    SettleWithdrawalsEffect(SettleFills(r, fills), ws, side, instrument, a, i);
  }
}
