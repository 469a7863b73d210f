/**
 Which bucket of the corpus each transaction takes money out of and which it puts it into. Every law says
 what the corpus is after the transaction in terms of the corpus before it, so the fields that a law does
 not name stay as they are.
 */
module Buckets {
  import opened Wrappers
  import opened FdLedger
  import opened FdSummary
  import opened Payments
  import opened Books
  import opened BooksInvariant
  import opened Dashboard

  // ---------------------------------------------------------------------------------------------
  // The buckets of the tables
  // ---------------------------------------------------------------------------------------------

  /** What one more month adds to the figures that are summed over the plans. */
  lemma MonthAdds(plans: seq<PlanRow>, row: PlanRow)
    ensures var p := row.plan;
            && Purchased(plans + [row], MF) == Purchased(plans, MF) + p.sipMf
            && Purchased(plans + [row], STOCKS) == Purchased(plans, STOCKS) + p.stocks
            && PositiveSavings(plans + [row]) == PositiveSavings(plans) + (if p.savings > 0 then p.savings else 0)
            && GoalsFunded(plans + [row]) == GoalsFunded(plans) + Positive(p.goalPayments)
            && FdPlanned(plans + [row]) == FdPlanned(plans) + p.fd.amount * p.fd.quantity
            && StashOf(plans + [row]) == StashOf(plans) + p.stash
            && Deficits(plans + [row]) == Deficits(plans) + Deficit(p)
            && (forall goalId :: Funded(plans + [row], goalId) == Funded(plans, goalId) + FundedBy(p.goalPayments, goalId))
            && (forall loanId :: PaidTo(plans + [row], loanId) == PaidTo(plans, loanId) + PaidIn(p.loanPayments, loanId))
  {
    hide Deficit, Positive, FundedBy, PaidIn;
    if plans == [] {
      assert [] + [row] == [row] && [row][1..] == [];
    } else {
      assert (plans + [row])[1..] == plans[1..] + [row];
      MonthAdds(plans[1..], row);
    }
  }

  /** What one more payment of a month adds: to its own goal or loan, and only when positive to a goal. */
  lemma PaymentAdds(payments: seq<Payment>, p: Payment)
    ensures Positive(payments + [p]) == Positive(payments) + (if p.amount > 0 then p.amount else 0)
    ensures Total(payments + [p]) == Total(payments) + p.amount
    ensures forall id :: FundedBy(payments + [p], id) ==
                         FundedBy(payments, id) + (if p.id == id && p.amount > 0 then p.amount else 0)
    ensures forall id :: PaidIn(payments + [p], id) == PaidIn(payments, id) + (if p.id == id then p.amount else 0)
  {
    if payments == [] {
      assert [] + [p] == [p] && [p][1..] == [];
    } else {
      assert (payments + [p])[1..] == payments[1..] + [p];
      PaymentAdds(payments[1..], p);
    }
  }

  /** What one more loan adds to what remains of all loans: its principal less what was paid to it, never
      less than nothing. */
  lemma LoanAdds(loans: seq<Loan>, plans: seq<PlanRow>, loan: Loan)
    ensures var left := loan.principal - PaidTo(plans, loan.id);
            LoansRemaining(loans + [loan], plans) == LoansRemaining(loans, plans) + (if left < 0 then 0 else left)
  {
    hide PaidTo;
    if loans == [] {
      assert [] + [loan] == [loan] && [loan][1..] == [];
    } else {
      assert (loans + [loan])[1..] == loans[1..] + [loan];
      LoanAdds(loans[1..], plans, loan);
    }
  }

  // ---------------------------------------------------------------------------------------------
  // Fixed deposits
  // ---------------------------------------------------------------------------------------------

  /** Only the ledger changed: its balance and its broken rupees, by opposite amounts. */
  lemma FdShifts(t: Tables, after: Ledger, rupees: int)
    requires Summarize(after.rows).fdBalance == Summarize(t.fd.rows).fdBalance - rupees
    requires Summarize(after.rows).brokenFdRupees == Summarize(t.fd.rows).brokenFdRupees + rupees
    ensures var a := CorpusOf(t);
            CorpusOf(t.(fd := after)) == a.(fd := a.fd - rupees, cashLike := a.cashLike + rupees)
  {
    hide Summarize, Balance, TotalMoved, PositiveSavings, Deficits, GoalsFunded, Sold;
    BalanceFrame(t, t.(fd := after));
  }

  lemma BalanceFrame(a: Tables, b: Tables)
    requires a.plans == b.plans && a.opening == b.opening && a.sales == b.sales
    ensures Balance(a, MF) == Balance(b, MF) && Balance(a, STOCKS) == Balance(b, STOCKS)
  {
  }

  /** An accepted break moves the rupees on its receipt from the fixed deposits to cash. */
  lemma FdBreakMoves(t: Tables, quantity: int, denomination: Denomination)
    requires Sound(t) && FdLedger.BreakPackets(t.fd, quantity, denomination).Success?
    ensures var a, rupees := CorpusOf(t), FdLedger.BreakPackets(t.fd, quantity, denomination).value.1.rupees;
            CorpusOf(Apply(t, BreakFd(quantity, denomination))) == a.(fd := a.fd - rupees, cashLike := a.cashLike + rupees)
  {
    hide CorpusOf, Summarize, Apply, BreakInserts, FdLedger.BreakPackets, WellFormed;
    BreakFdEffect(t, quantity, denomination);
    BreakUnfold(t.fd, quantity, denomination);
    ReceiptIsSummary(t.fd, quantity, denomination);
    var (after, receipt) := FdLedger.BreakPackets(t.fd, quantity, denomination).value;
    FdShifts(t, after, receipt.rupees);
  }

  /** Undoing a break row moves its packets times their price back. */
  lemma FdUndoMoves(t: Tables, e: Entry)
    requires WellFormed(t.fd) && e in t.fd.rows && e.Break?
    ensures var a, rupees := CorpusOf(t), e.amount * e.quantity;
            CorpusOf(Apply(t, UndoFd(e.id))) == a.(fd := a.fd + rupees, cashLike := a.cashLike - rupees)
  {
    hide CorpusOf, Summarize, Apply;
    var i := IndexOfBreak(t.fd.rows, e.id).value;
    assert t.fd.rows[i] == e;
    UndoFdEffect(t, e.id);
    UndoConserves(t.fd, e.id);
    FdShifts(t, FdLedger.UndoBreak(t.fd, e.id).value.0, -(e.amount * e.quantity));
  }

  // ---------------------------------------------------------------------------------------------
  // Investments
  // ---------------------------------------------------------------------------------------------

  /** Only the sales changed: `mf` and `stocks` more rupees were sold of the two assets. */
  lemma SalesShift(t: Tables, after: Sales, mf: int, stocks: int)
    requires Sold(after.rows, MF) == Sold(t.sales.rows, MF) + mf
    requires Sold(after.rows, STOCKS) == Sold(t.sales.rows, STOCKS) + stocks
    ensures var a := CorpusOf(t);
            CorpusOf(t.(sales := after)) ==
            a.(mf := a.mf - mf, stocks := a.stocks - stocks, investment := a.investment - mf - stocks,
               cashLike := a.cashLike + mf + stocks, liquid := a.liquid + mf + stocks)
  {
    hide Summarize, TotalMoved, PositiveSavings, Deficits, GoalsFunded, Sold, Purchased;
  }

  /** An accepted sale moves its amount from its own asset, and from the investments, to cash, and so to the
      liquid money. */
  lemma SaleMoves(t: Tables, asset: Asset, amount: int)
    requires 0 < amount <= Balance(t, asset)
    ensures var a, b := CorpusOf(t), CorpusOf(Apply(t, Sell(asset, amount)));
            && (asset == MF ==> b == a.(mf := a.mf - amount, investment := a.investment - amount,
                                        cashLike := a.cashLike + amount, liquid := a.liquid + amount))
            && (asset == STOCKS ==> b == a.(stocks := a.stocks - amount, investment := a.investment - amount,
                                            cashLike := a.cashLike + amount, liquid := a.liquid + amount))
  {
    hide CorpusOf, Apply, Sold, Balance;
    SellEffect(t, asset, amount);
    var row := Sale(t.sales.nextId, asset, amount);
    SoldSnoc(t.sales.rows, row, MF);
    SoldSnoc(t.sales.rows, row, STOCKS);
    SalesShift(t, Sales(t.sales.rows + [row], t.sales.nextId + 1), if asset.MF? then amount else 0, if asset.MF? then 0 else amount);
  }

  /** Undoing a sale moves its amount back into its own asset. */
  lemma SaleUndoMoves(t: Tables, s: Sale)
    requires SalesStored(t.sales) && s in t.sales.rows
    ensures var a, b := CorpusOf(t), CorpusOf(Apply(t, UndoSale(s.id)));
            && (s.asset == MF ==> b == a.(mf := a.mf + s.amount, investment := a.investment + s.amount,
                                          cashLike := a.cashLike - s.amount, liquid := a.liquid - s.amount))
            && (s.asset == STOCKS ==> b == a.(stocks := a.stocks + s.amount, investment := a.investment + s.amount,
                                              cashLike := a.cashLike - s.amount, liquid := a.liquid - s.amount))
  {
    hide CorpusOf, Apply, Sold;
    UndoSaleEffect(t, s.id);
    var i := IndexOfSale(t.sales.rows, s.id).value;
    assert t.sales.rows[i] == s;
    SoldRemove(t.sales.rows, i, MF);
    SoldRemove(t.sales.rows, i, STOCKS);
    SalesShift(t, t.sales.(rows := t.sales.rows[..i] + t.sales.rows[i + 1..]),
               if s.asset.MF? then -s.amount else 0, if s.asset.MF? then 0 else -s.amount);
  }

  /** Setting the opening balances moves each bucket by the change of its own balance. */
  lemma OpeningMoves(t: Tables, next: Opening)
    requires Decide(t, SetOpening(next)).Success?
    ensures var a, was := CorpusOf(t), t.opening;
            CorpusOf(Apply(t, SetOpening(next))) ==
            a.(cashLike := a.cashLike + next.liquid - was.liquid, liquid := a.liquid + next.liquid - was.liquid,
               mf := a.mf + next.mf - was.mf, stocks := a.stocks + next.stocks - was.stocks,
               investment := a.investment + next.mf - was.mf + next.stocks - was.stocks,
               total := a.total + next.liquid - was.liquid + next.mf - was.mf + next.stocks - was.stocks)
  {
    hide Summarize, TotalMoved, PositiveSavings, Deficits, GoalsFunded, Sold, Purchased;
    ApplySingle(t, PutOpening(next));
  }

  // ---------------------------------------------------------------------------------------------
  // Goals
  // ---------------------------------------------------------------------------------------------

  /** Only the moves changed, and they were and are within the goal funding. */
  lemma MovesShift(t: Tables, after: GoalMoves, amount: int)
    requires TotalMoved(after.rows) == TotalMoved(t.moves.rows) + amount
    requires TotalMoved(t.moves.rows) <= GoalsFunded(t.plans) && TotalMoved(after.rows) <= GoalsFunded(t.plans)
    ensures var a := CorpusOf(t);
            CorpusOf(t.(moves := after)) == a.(goalsTotal := a.goalsTotal - amount, cashLike := a.cashLike + amount)
  {
    hide Summarize, TotalMoved, PositiveSavings, Deficits, GoalsFunded, Sold, Balance;
    BalanceFrame(t, t.(moves := after));
  }

  /** An accepted goal break of a covered tenant moves its amount from the goals to cash: as many whole
      rupees as are nearest to what was asked. */
  lemma GoalBreakMoves(t: Tables, goalId: string, rupees: real, n: int)
    requires Sound(t) && GoalsCovered(t) && Nearest(rupees, n)
    requires Decide(t, BreakGoal(goalId, rupees)).Success?
    ensures var a := CorpusOf(t);
            CorpusOf(Apply(t, BreakGoal(goalId, rupees))) ==
            a.(goalsTotal := a.goalsTotal - 100 * n, cashLike := a.cashLike + 100 * n)
  {
    hide CorpusOf, Apply, TotalMoved, Sound, RoundHalfUp, GoalsCovered, Nearest, Moved, Funded, GoalsFunded;
    RoundsToNearest(rupees);
    var op := BreakGoal(goalId, rupees);
    BreakGoalEffect(t, goalId, rupees);
    MovedAfter(t, op);
    GoalBreakCovered(t, goalId, rupees);
    ClampIdle(t);
    ClampIdle(Apply(t, op));
    MovesShift(t, Apply(t, op).moves, 100 * n);
  }

  /** Undoing a goal move gives its amount back to the goals. */
  lemma GoalUndoMoves(t: Tables, m: GoalMove)
    requires Sound(t) && GoalsCovered(t) && m in t.moves.rows
    ensures var a := CorpusOf(t);
            CorpusOf(Apply(t, UndoGoal(m.id))) == a.(goalsTotal := a.goalsTotal + m.amount, cashLike := a.cashLike - m.amount)
  {
    hide CorpusOf, Apply, TotalMoved, GoalsCovered, Moved, Funded, GoalsFunded, WellFormed, PlansStored, Solvent, Mirrors;
    var op := UndoGoal(m.id);
    var i := IndexOfMove(t.moves.rows, m.id).value;
    assert t.moves.rows[i] == m;
    UndoGoalEffect(t, m.id);
    MovedAfter(t, op);
    GoalUndoCovered(t, m.id);
    ClampIdle(t);
    ClampIdle(Apply(t, op));
    MovesShift(t, Apply(t, op).moves, -m.amount);
  }
}
