/**
 The goal, investment and plan services over the stored tables. Each method runs the reads, checks and
 writes of its service and is proved to be the transaction of Books; the dashboard fold is proved to be
 CorpusOf.
 */
module BooksServices {
  import opened Wrappers
  import opened FdLedger
  import opened FdSummary
  import opened FdLedgerServices
  import opened Payments
  import opened Books
  import opened BooksInvariant
  import opened Dashboard

  datatype GoalReceipt = GoalReceipt(amount: int, remaining: int, brokenAmount: int)

  class MoneyServices {
    var plans: seq<PlanRow>
    var opening: Opening
    var sales: Sales
    var goals: set<string>
    var moves: GoalMoves
    const fdLedger: FdLedgerService

    ghost function Contents(): Tables
      reads this, fdLedger
    {
      Tables(plans, opening, fdLedger.Contents(), sales, goals, moves)
    }

    constructor (fdLedger: FdLedgerService, goals: set<string>)
      requires fdLedger.Contents() == Ledger([], 0)
      ensures this.fdLedger == fdLedger && Contents() == Empty(goals)
    {
      this.fdLedger, this.goals := fdLedger, goals;
      plans, opening := [], Opening(0, 0, 0);
      sales, moves := Sales([], 0), GoalMoves([], 0);
    }

    // -------------------------------------------------------------------------------------------
    // Goals
    // -------------------------------------------------------------------------------------------

    method FundedAmount(goalId: string) returns (funded: int)
      ensures funded == Funded(plans, goalId)
    {
      funded := 0;
      for i := 0 to |plans|
        invariant funded + Funded(plans[i..], goalId) == Funded(plans, goalId)
      {
        var payments := plans[i].plan.goalPayments;
        assert plans[i..][1..] == plans[i + 1..];
        ghost var before := funded;
        for j := 0 to |payments|
          invariant funded + FundedBy(payments[j..], goalId) == before + FundedBy(payments, goalId)
        {
          assert payments[j..][1..] == payments[j + 1..];
          if payments[j].id != goalId {
            continue;
          }
          if payments[j].amount > 0 {
            funded := funded + payments[j].amount;
          }
        }
      }
    }

    method BreakGoal(goalId: string, rupees: real) returns (r: Result<GoalReceipt, Error>)
      modifies this
      ensures Contents() == Apply(old(Contents()), Op.BreakGoal(goalId, rupees))
      ensures r.Success? == Decide(old(Contents()), Op.BreakGoal(goalId, rupees)).Success?
      ensures r.Success? ==>
                && r.value.brokenAmount == Moved(moves.rows, goalId) == Moved(old(moves.rows), goalId) + r.value.amount
                && r.value.remaining == Funded(plans, goalId) - Moved(moves.rows, goalId)
      ensures r.Success? ==>
                && Nearest(rupees, r.value.amount / 100) && r.value.amount % 100 == 0
                && moves == GoalMoves(old(moves.rows) + [GoalMove(old(moves.nextId), goalId, r.value.amount)], old(moves.nextId) + 1)
      ensures forall n :: Nearest(rupees, n) ==>
                var left := Funded(plans, goalId) - Moved(old(moves.rows), goalId);
                if n < 1 then r == Failure(BadGoalAmount)
                else if goalId !in goals then r == Failure(NoSuchGoal)
                else if 100 * n <= left then r.Success?
                else r == Failure(GoalExceeds(if left < 0 then 0 else left))
      ensures plans == old(plans) && opening == old(opening) && sales == old(sales) && goals == old(goals)
    {
      hide Apply, Funded, Moved, RoundHalfUp;
      RoundsToNearest(rupees);
      BreakGoalEffect(Contents(), goalId, rupees);
      var amount := RoundHalfUp(rupees);
      if amount < 1 {
        return Failure(BadGoalAmount);
      }
      if goalId !in goals {
        return Failure(NoSuchGoal);
      }
      var funded := FundedAmount(goalId);
      var alreadyBroken := Moved(moves.rows, goalId);
      var remaining := Max(0, funded - alreadyBroken);
      if amount * RUPEE > remaining {
        return Failure(GoalExceeds(remaining));
      }
      var row := GoalMove(moves.nextId, goalId, amount * RUPEE);
      MovedAppend(moves.rows, row, goalId);
      moves := GoalMoves(moves.rows + [row], moves.nextId + 1);
      return Success(GoalReceipt(row.amount, remaining - row.amount, alreadyBroken + row.amount));
    }

    method UndoGoal(id: nat) returns (r: Result<(string, int), Error>)
      modifies this
      ensures Contents() == Apply(old(Contents()), Op.UndoGoal(id))
      ensures r.Success? <==> exists m <- old(moves.rows) :: m.id == id
      ensures r.Success? ==> exists m <- old(moves.rows) :: m.id == id && r.value == (m.goalId, m.amount)
                                                            && multiset(moves.rows) == multiset(old(moves.rows)) - multiset{m}
      ensures plans == old(plans) && opening == old(opening) && sales == old(sales) && goals == old(goals)
      ensures r.Failure? ==> r.error == NoSuchMove
    {
      hide Apply;
      UndoGoalEffect(Contents(), id);
      match IndexOfMove(moves.rows, id)
      case None =>
        return Failure(NoSuchMove);
      case Some(i) =>
        var row := moves.rows[i];
        assert row in moves.rows && moves.rows == moves.rows[..i] + [row] + moves.rows[i + 1..];
        moves := moves.(rows := moves.rows[..i] + moves.rows[i + 1..]);
        return Success((row.goalId, row.amount));
    }

    // -------------------------------------------------------------------------------------------
    // Investments
    // -------------------------------------------------------------------------------------------

    method Sell(asset: Asset, amount: int) returns (r: Result<nat, Error>)
      modifies this
      ensures Contents() == Apply(old(Contents()), Op.Sell(asset, amount))
      ensures r.Success? <==> 0 < amount <= Balance(old(Contents()), asset)
      ensures r.Success? ==> r.value == old(sales.nextId)
                             && sales == Sales(old(sales.rows) + [Sale(r.value, asset, amount)], r.value + 1)
      ensures plans == old(plans) && opening == old(opening) && goals == old(goals) && moves == old(moves)
      ensures r.Failure? ==> r.error == if amount <= 0 then BadSaleAmount else SaleExceeds(Balance(old(Contents()), asset))
    {
      ghost var t := Contents();
      if amount <= 0 {
        return Failure(BadSaleAmount);
      }
      var available := Prev(opening, asset) + Purchased(plans, asset) - Sold(sales.rows, asset);
      if amount > available {
        return Failure(SaleExceeds(available));
      }
      ApplySingle(t, InsertSale(asset, amount));
      var id := sales.nextId;
      sales := Sales(sales.rows + [Sale(id, asset, amount)], id + 1);
      return Success(id);
    }

    method UndoSale(id: nat) returns (r: Result<(int, Asset), Error>)
      modifies this
      ensures Contents() == Apply(old(Contents()), Op.UndoSale(id))
      ensures r.Success? <==> exists s <- old(sales.rows) :: s.id == id
      ensures r.Success? ==> exists s <- old(sales.rows) :: s.id == id && r.value == (s.amount, s.asset)
                                                            && multiset(sales.rows) == multiset(old(sales.rows)) - multiset{s}
      ensures plans == old(plans) && opening == old(opening) && goals == old(goals) && moves == old(moves)
      ensures r.Failure? ==> r.error == NoSuchSale
    {
      ghost var t := Contents();
      UndoSaleEffect(t, id);
      match IndexOfSale(sales.rows, id)
      case None =>
        return Failure(NoSuchSale);
      case Some(i) =>
        var row := sales.rows[i];
        assert row in sales.rows && sales.rows == sales.rows[..i] + [row] + sales.rows[i + 1..];
        sales := sales.(rows := sales.rows[..i] + sales.rows[i + 1..]);
        return Success((row.amount, row.asset));
    }

    method SetOpening(next: Opening) returns (r: Result<(), Error>)
      modifies this
      ensures Contents() == Apply(old(Contents()), Op.SetOpening(next))
      ensures r.Success? <==>
                && Sold(old(sales.rows), MF) <= next.mf + Purchased(old(plans), MF)
                && Sold(old(sales.rows), STOCKS) <= next.stocks + Purchased(old(plans), STOCKS)
      ensures opening == if r.Success? then next else old(opening)
      ensures r.Failure? ==>
                r.error == BelowSold(if next.mf + Purchased(old(plans), MF) < Sold(old(sales.rows), MF) then MF else STOCKS)
      ensures plans == old(plans) && sales == old(sales) && goals == old(goals) && moves == old(moves)
    {
      ghost var t := Contents();
      if next.mf + Purchased(plans, MF) < Sold(sales.rows, MF) {
        return Failure(BelowSold(MF));
      }
      if next.stocks + Purchased(plans, STOCKS) < Sold(sales.rows, STOCKS) {
        return Failure(BelowSold(STOCKS));
      }
      ApplySingle(t, PutOpening(next));
      opening := next;
      return Success(());
    }

    // -------------------------------------------------------------------------------------------
    // Plans
    // -------------------------------------------------------------------------------------------

    /** One database transaction: when the FD sync is rejected the saved plan is rolled back. */
    method Upsert(period: Period, dto: PlanDto) returns (r: Result<Plan, Error>)
      modifies this, fdLedger
      ensures Contents() == Apply(old(Contents()), UpsertPlan(period, dto))
      ensures r.Success? == Decide(old(Contents()), UpsertPlan(period, dto)).Success?
      ensures r.Success? ==> Current(plans, period) == Some(r.value) && SavedAsAsked(Current(old(plans), period), dto, r.value)
      ensures forall other :: other != period ==> Current(plans, other) == Current(old(plans), other)
      ensures r.Success? && Sound(old(Contents())) ==>
                && Sound(Contents())
                && Sold(sales.rows, MF) <= opening.mf + Purchased(plans, MF)
                && Sold(sales.rows, STOCKS) <= opening.stocks + Purchased(plans, STOCKS)
      ensures opening == old(opening) && sales == old(sales) && goals == old(goals) && moves == old(moves)
      ensures r.Failure? ==> r.error == Decide(old(Contents()), UpsertPlan(period, dto)).error
      ensures r.Failure? ==> Contents() == old(Contents())
    {
      hide Merged, Sound, SavedAsAsked, Sold, Purchased, Sync, WellFormed, NormalizePacket, ValidatePlanWrite, PutPlanRow, PutLotRow;
      hide Current, Consumed;
      ghost var t := Contents();
      var fd: Option<Packet> := None;
      if dto.fd.Some? {
        var packet := NormalizePacket(dto.fd.value);
        if packet.Failure? {
          return Failure(Fd(packet.error));
        }
        fd := Some(packet.value);
      }
      var valid := ValidatePlanWrite(plans, opening, sales.rows, period, dto.sipMf, dto.stocks);
      if valid.Failure? {
        return Failure(valid.error);
      }
      var before := plans;
      var saved := Merged(Current(plans, period), dto, fd);
      plans := PutPlanRow(plans, period, saved);
      var synced := fdLedger.SyncContribution(period, saved.fd);
      if synced.Failure? {
        plans := before;
        return Failure(Fd(synced.error));
      }
      ApplyTwo(t, PutPlan(period, saved), PutLot(period, saved.fd));
      PutLotIsSync(t.fd, period, saved.fd);
      PlanLeaves(t, period, dto);
      return Success(saved);
    }

    // -------------------------------------------------------------------------------------------
    // Dashboard
    // -------------------------------------------------------------------------------------------

    method GetDashboardSummary(activeLoans: seq<Loan>, stashDeductions: int, today: Period) returns (r: Overview)
      requires PlansStored(plans)
      ensures FiguresOf(r.corpus)
      ensures r.corpus == CorpusOf(Contents()) && r.fd == Summarize(fdLedger.rows)
      ensures r.currentPlan == Current(plans, today)
      ensures r.savingsCash == PositiveSavings(plans) && r.deficitWithdrawals == Deficits(plans)
      ensures r.brokenGoals == TotalMoved(moves.rows)
      ensures r.stashTotal == StashOf(plans) && r.stashBalance == StashOf(plans) - stashDeductions
      ensures forall id :: Lookup(r.paidByLoanId, id) == PaidTo(plans, id)
      ensures r.loansRemaining == LoansRemaining(activeLoans, plans)
    {
      hide Deficit, Summarize, CorpusOf, FiguresOf;
      var totalStash, totalPositiveSavings, totalDeficits, goalsFunded := 0, 0, 0, 0;
      var paidByLoanId: map<string, int> := map[];
      for i := 0 to |plans|
        invariant totalStash + StashOf(plans[i..]) == StashOf(plans)
        invariant totalPositiveSavings + PositiveSavings(plans[i..]) == PositiveSavings(plans)
        invariant totalDeficits + Deficits(plans[i..]) == Deficits(plans)
        invariant goalsFunded + GoalsFunded(plans[i..]) == GoalsFunded(plans)
        invariant forall id :: Lookup(paidByLoanId, id) + PaidTo(plans[i..], id) == PaidTo(plans, id)
      {
        var plan := plans[i].plan;
        assert plans[i..][1..] == plans[i + 1..];
        assert plans[i] in plans;
        var goalPayments, deficit, loans := PlanFigures(plan);
        totalStash := totalStash + plan.stash;
        totalPositiveSavings := totalPositiveSavings + Max(0, plan.savings);
        goalsFunded := goalsFunded + goalPayments;
        totalDeficits := totalDeficits + deficit;
        paidByLoanId := AddPayments(paidByLoanId, loans);
      }
      var loansRemaining := 0;
      for k := 0 to |activeLoans|
        invariant loansRemaining + LoansRemaining(activeLoans[k..], plans) == LoansRemaining(activeLoans, plans)
      {
        assert activeLoans[k..][1..] == activeLoans[k + 1..];
        loansRemaining := loansRemaining + Max(0, activeLoans[k].principal - Lookup(paidByLoanId, activeLoans[k].id));
      }
      var fdSummary := fdLedger.SummarizeEntries(fdLedger.rows);
      var brokenGoals := TotalMoved(moves.rows);
      var corpus := CorpusFrom(totalPositiveSavings, totalDeficits, goalsFunded, brokenGoals, fdSummary);
      r := Overview(Current(plans, today), corpus, totalPositiveSavings, brokenGoals, totalDeficits,
                    totalStash, totalStash - stashDeductions, fdSummary, paidByLoanId, loansRemaining);
    }

    /** The figures of one plan, read through the normalisers of its lists. */
    method PlanFigures(plan: Plan) returns (goalPayments: int, deficit: int, loans: seq<Payment>)
      requires ListsCanonical(plan)
      ensures goalPayments == Positive(plan.goalPayments) && deficit == Deficit(plan) && loans == plan.loanPayments
    {
      NormalizeStored(plan.goalPayments);
      ListsStored(plan.loanPayments, plan.customExpenses, plan.banks);
      goalPayments := Positive(NormalizeGoalPayments(Some(AsJson(plan.goalPayments))));
      var income := plan.salary + plan.otherSources;
      loans := NormalizeLoanPayments(Some(AsJson(plan.loanPayments)));
      var customExpenses := NormalizeCustomExpenses(Some(ExpensesAsJson(plan.customExpenses)));
      var expenses := plan.rent + plan.cook + plan.bills + plan.otherExpenses + Total(loans) + TotalExpenses(customExpenses);
      var investment := Max(0, plan.stocks + plan.sipMf);
      var liquid := Max(0, plan.savings + plan.stash + goalPayments);
      var fdOut := plan.fd.amount * plan.fd.quantity;
      deficit := Max(0, expenses + investment + liquid + fdOut - income);
    }

    method AddPayments(paid0: map<string, int>, payments: seq<Payment>) returns (paid: map<string, int>)
      ensures forall id :: Lookup(paid, id) == Lookup(paid0, id) + PaidIn(payments, id)
    {
      paid := paid0;
      for j := 0 to |payments|
        invariant forall id :: Lookup(paid, id) + PaidIn(payments[j..], id) == Lookup(paid0, id) + PaidIn(payments, id)
      {
        var entry := payments[j];
        assert payments[j..][1..] == payments[j + 1..];
        paid := paid[entry.id := Lookup(paid, entry.id) + entry.amount];
      }
    }

    /** The corpus from the tables: what each bucket holds, and what the sums are sums of. */
    ghost predicate FiguresOf(corpus: Corpus)
      reads this, fdLedger
    {
      && corpus.mf == opening.mf + Purchased(plans, MF) - Sold(sales.rows, MF)
      && corpus.stocks == opening.stocks + Purchased(plans, STOCKS) - Sold(sales.rows, STOCKS)
      && corpus.fd == Contributed(fdLedger.rows, Rupees) - Broken(fdLedger.rows, Rupees)
      && corpus.cashLike == opening.liquid + PositiveSavings(plans) - Deficits(plans) + Broken(fdLedger.rows, Rupees)
                            + Sold(sales.rows, MF) + Sold(sales.rows, STOCKS) + TotalMoved(moves.rows)
      && corpus.goalsTotal == (if GoalsFunded(plans) < TotalMoved(moves.rows) then 0 else GoalsFunded(plans) - TotalMoved(moves.rows))
      && corpus.liquid == corpus.cashLike + corpus.goalsTotal + corpus.fd
      && corpus.investment == corpus.mf + corpus.stocks
      && corpus.total == corpus.liquid + corpus.investment
    }

    method CorpusFrom(positiveSavings: int, deficits: int, goalsFunded: int, brokenGoals: int, fdSummary: Summary)
      returns (corpus: Corpus)
      requires positiveSavings == PositiveSavings(plans) && deficits == Deficits(plans)
      requires goalsFunded == GoalsFunded(plans) && brokenGoals == TotalMoved(moves.rows)
      requires fdSummary == Summarize(fdLedger.rows)
      ensures corpus == CorpusOf(Contents()) && FiguresOf(corpus)
    {
      hide Purchased, Sold, TotalMoved, GoalsFunded, Contributed, Broken, Amounts, PositiveLots, SortByAmount;
      var goalsTotal := Max(0, goalsFunded - brokenGoals);
      var soldInvestments := Sold(sales.rows, MF) + Sold(sales.rows, STOCKS);
      var cashLike := opening.liquid + positiveSavings + fdSummary.brokenFdRupees + brokenGoals + soldInvestments - deficits;
      var liquid := cashLike + goalsTotal + fdSummary.fdBalance;
      var stocks := opening.stocks + Purchased(plans, STOCKS) - Sold(sales.rows, STOCKS);
      var mf := opening.mf + Purchased(plans, MF) - Sold(sales.rows, MF);
      corpus := Corpus(cashLike, goalsTotal, fdSummary.fdBalance, liquid, stocks, mf, mf + stocks, liquid + (mf + stocks));
    }
  }
}
