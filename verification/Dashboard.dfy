/**
 The corpus figures of the dashboard and what moves them. The total is a plan-only base plus the
 larger of goal funding and goal money already moved, so taking money out of FDs, goals or investments,
 or putting it back, never changes it while no goal has given out more than it received.
 */
module Dashboard {
  import opened Wrappers
  import opened FdLedger
  import opened FdSummary
  import opened Payments
  import opened Books
  import opened BooksInvariant

  datatype Corpus = Corpus(cashLike: int, goalsTotal: int, fd: int, liquid: int, stocks: int, mf: int, investment: int, total: int)

  function Positive(payments: seq<Payment>): (r: int)
    ensures 0 <= r
  {
    if payments == [] then 0 else Max(0, payments[0].amount) + Positive(payments[1..])
  }

  function Total(payments: seq<Payment>): int {
    if payments == [] then 0 else payments[0].amount + Total(payments[1..])
  }

  function TotalExpenses(expenses: seq<Expense>): int {
    if expenses == [] then 0 else expenses[0].amount + TotalExpenses(expenses[1..])
  }

  /** What the month's spending and saving exceeds its income by. */
  function Deficit(plan: Plan): int {
    var expenses := plan.rent + plan.cook + plan.bills + plan.otherExpenses + Total(plan.loanPayments) + TotalExpenses(plan.customExpenses);
    var investment := Max(0, plan.stocks + plan.sipMf);
    var liquid := Max(0, plan.savings + plan.stash + Positive(plan.goalPayments));
    Max(0, expenses + investment + liquid + plan.fd.amount * plan.fd.quantity - (plan.salary + plan.otherSources))
  }

  function PositiveSavings(plans: seq<PlanRow>): int {
    if plans == [] then 0 else Max(0, plans[0].plan.savings) + PositiveSavings(plans[1..])
  }

  function Deficits(plans: seq<PlanRow>): int {
    if plans == [] then 0 else Deficit(plans[0].plan) + Deficits(plans[1..])
  }

  function GoalsFunded(plans: seq<PlanRow>): (r: int)
    ensures 0 <= r
  {
    if plans == [] then 0 else Positive(plans[0].plan.goalPayments) + GoalsFunded(plans[1..])
  }

  function FdPlanned(plans: seq<PlanRow>): int {
    if plans == [] then 0 else plans[0].plan.fd.amount * plans[0].plan.fd.quantity + FdPlanned(plans[1..])
  }

  function TotalMoved(moves: seq<GoalMove>): int {
    if moves == [] then 0 else moves[0].amount + TotalMoved(moves[1..])
  }

  function CorpusOf(t: Tables): Corpus {
    var summary := Summarize(t.fd.rows);
    var moved := TotalMoved(t.moves.rows);
    var goalsTotal := Max(0, GoalsFunded(t.plans) - moved);
    var sold := Sold(t.sales.rows, MF) + Sold(t.sales.rows, STOCKS);
    var cashLike := t.opening.liquid + PositiveSavings(t.plans) + summary.brokenFdRupees + moved + sold - Deficits(t.plans);
    var liquid := cashLike + goalsTotal + summary.fdBalance;
    var investment := Balance(t, MF) + Balance(t, STOCKS);
    Corpus(cashLike, goalsTotal, summary.fdBalance, liquid, Balance(t, STOCKS), Balance(t, MF), investment, liquid + investment)
  }

  /** The part of the corpus that only plans and opening balances decide. */
  function PlanBase(plans: seq<PlanRow>, opening: Opening): int {
    opening.liquid + opening.mf + opening.stocks
    + PositiveSavings(plans) - Deficits(plans) + FdPlanned(plans)
    + Purchased(plans, MF) + Purchased(plans, STOCKS)
  }

  lemma MirrorRupees(plans: seq<PlanRow>, lots: seq<Entry>)
    requires forall e <- lots :: e.Contribution?
    requires Mirrors(plans, lots)
    ensures Contributed(lots, Rupees) == FdPlanned(plans)
  {
    if plans != [] {
      assert forall i :: 0 <= i < |plans[1..]| ==> lots[1..][i] == lots[i + 1] && plans[1..][i] == plans[i + 1];
      MirrorRupees(plans[1..], lots[1..]);
    }
  }

  /** The rupees ever contributed to FDs are the rupees the plans put into FDs. */
  lemma ContributedIsPlanned(t: Tables)
    requires Sound(t)
    ensures Contributed(t.fd.rows, Rupees) == FdPlanned(t.plans)
  {
    MirrorRupees(t.plans, Contributions(t.fd.rows));
    ContributedFilter(t.fd.rows, Rupees);
  }

  /** In every reachable state the total is the plan base plus the larger of funded and moved goals. */
  lemma TotalFormula(t: Tables)
    requires Sound(t)
    ensures CorpusOf(t).total == PlanBase(t.plans, t.opening) + Max(GoalsFunded(t.plans), TotalMoved(t.moves.rows))
  {
    ContributedIsPlanned(t);
  }

  /** Two reachable states with the same plans and opening balances. */
  lemma TotalsEqualIff(a: Tables, b: Tables)
    requires Sound(a) && Sound(b) && a.plans == b.plans && a.opening == b.opening
    ensures CorpusOf(a).total == CorpusOf(b).total <==>
            Max(GoalsFunded(a.plans), TotalMoved(a.moves.rows)) == Max(GoalsFunded(b.plans), TotalMoved(b.moves.rows))
  {
    hide CorpusOf, Sound, PlanBase, GoalsFunded, TotalMoved;
    TotalFormula(a);
    TotalFormula(b);
  }

  // ---------------------------------------------------------------------------------------------
  // The loans and the stash
  // ---------------------------------------------------------------------------------------------

  datatype Loan = Loan(id: string, principal: int)

  datatype Overview = Overview(
    currentPlan: Option<Plan>, corpus: Corpus, savingsCash: int, brokenGoals: int, deficitWithdrawals: int,
    stashTotal: int, stashBalance: int, fd: Summary, paidByLoanId: map<string, int>, loansRemaining: int)

  function StashOf(plans: seq<PlanRow>): int {
    if plans == [] then 0 else plans[0].plan.stash + StashOf(plans[1..])
  }

  function PaidIn(payments: seq<Payment>, loanId: string): int {
    if payments == [] then 0 else (if payments[0].id == loanId then payments[0].amount else 0) + PaidIn(payments[1..], loanId)
  }

  /** What the plans have paid towards one loan. */
  function PaidTo(plans: seq<PlanRow>, loanId: string): int {
    if plans == [] then 0 else PaidIn(plans[0].plan.loanPayments, loanId) + PaidTo(plans[1..], loanId)
  }

  function LoansRemaining(loans: seq<Loan>, plans: seq<PlanRow>): (r: int)
    ensures 0 <= r
  {
    if loans == [] then 0 else Max(0, loans[0].principal - PaidTo(plans, loans[0].id)) + LoansRemaining(loans[1..], plans)
  }

  // ---------------------------------------------------------------------------------------------
  // The plan base, month by month
  // ---------------------------------------------------------------------------------------------

  /** What one month puts into savings, goals, investments and FDs. */
  function SetAside(plan: Plan): int {
    Max(0, plan.savings) + Positive(plan.goalPayments) + plan.sipMf + plan.stocks + plan.fd.amount * plan.fd.quantity
  }

  /** The part of the month's liquid money that is neither savings nor goal funding: its stash, when
      savings and stash are not negative. */
  function Stashed(plan: Plan): int {
    Max(0, plan.savings + plan.stash + Positive(plan.goalPayments)) - Max(0, plan.savings) - Positive(plan.goalPayments)
  }

  /** What one month has left of its income after expenses and stash; selling off investments through a
      negative plan amount does not count as income. */
  function LeftOver(plan: Plan): int {
    plan.salary + plan.otherSources
    - (plan.rent + plan.cook + plan.bills + plan.otherExpenses + Total(plan.loanPayments) + TotalExpenses(plan.customExpenses))
    - Stashed(plan) - Max(0, -(plan.sipMf + plan.stocks))
  }

  function MonthShares(plans: seq<PlanRow>): int {
    if plans == [] then 0 else Min(SetAside(plans[0].plan), LeftOver(plans[0].plan)) + MonthShares(plans[1..])
  }

  lemma {:induction false} BaseByMonth(plans: seq<PlanRow>, opening: Opening)
    ensures PlanBase(plans, opening) + GoalsFunded(plans) == opening.liquid + opening.mf + opening.stocks + MonthShares(plans)
  {
    if plans != [] {
      BaseByMonth(plans[1..], opening);
    }
  }

  /** The deficit withdrawals make the corpus honest: a month adds what it sets aside, but never more
      than its income leaves over, and takes out of the corpus what it overspends. On top comes only
      goal money moved beyond all funding. */
  lemma TotalByMonth(t: Tables)
    requires Sound(t)
    ensures CorpusOf(t).total == t.opening.liquid + t.opening.mf + t.opening.stocks + MonthShares(t.plans)
                                 + Max(0, TotalMoved(t.moves.rows) - GoalsFunded(t.plans))
  {
    hide Sound, CorpusOf;
    TotalFormula(t);
    BaseByMonth(t.plans, t.opening);
  }

  // ---------------------------------------------------------------------------------------------
  // Goals: per-goal cover implies tenant-wide cover
  // ---------------------------------------------------------------------------------------------

  /** No goal has given out more than its plans put in. */
  ghost predicate GoalsCovered(t: Tables) {
    forall goalId :: Moved(t.moves.rows, goalId) <= Funded(t.plans, goalId)
  }

  /** Each goal once, in the order of its first move. */
  function GoalIds(moves: seq<GoalMove>): (r: seq<string>)
    ensures forall m <- moves :: m.goalId in r
    ensures forall i, j :: 0 <= i < j < |r| ==> r[i] != r[j]
  {
    if moves == [] then []
    else
      var rest := GoalIds(moves[1..]);
      if moves[0].goalId in rest then rest else [moves[0].goalId] + rest
  }

  function MovedOver(moves: seq<GoalMove>, ids: seq<string>): int {
    if ids == [] then 0 else Moved(moves, ids[0]) + MovedOver(moves, ids[1..])
  }

  function FundedOver(plans: seq<PlanRow>, ids: seq<string>): int {
    if ids == [] then 0 else Funded(plans, ids[0]) + FundedOver(plans, ids[1..])
  }

  function PaidOver(payments: seq<Payment>, ids: seq<string>): int {
    if ids == [] then 0 else FundedBy(payments, ids[0]) + PaidOver(payments, ids[1..])
  }

  ghost predicate Distinct(ids: seq<string>) {
    forall i, j :: 0 <= i < j < |ids| ==> ids[i] != ids[j]
  }

  lemma MovedOverCons(moves: seq<GoalMove>, ids: seq<string>)
    requires moves != [] && Distinct(ids)
    ensures MovedOver(moves, ids) == MovedOver(moves[1..], ids) + (if moves[0].goalId in ids then moves[0].amount else 0)
  {
    if ids != [] {
      MovedOverCons(moves, ids[1..]);
    }
  }

  lemma {:induction false} MovesPartition(moves: seq<GoalMove>, ids: seq<string>)
    requires Distinct(ids) && forall m <- moves :: m.goalId in ids
    ensures MovedOver(moves, ids) == TotalMoved(moves)
  {
    if moves == [] {
      NothingMoved(ids);
    } else {
      MovesPartition(moves[1..], ids);
      MovedOverCons(moves, ids);
    }
  }

  lemma NothingMoved(ids: seq<string>)
    ensures MovedOver([], ids) == 0
  {
  }

  lemma PaidOverCons(payments: seq<Payment>, ids: seq<string>)
    requires payments != [] && Distinct(ids)
    ensures PaidOver(payments, ids) ==
            PaidOver(payments[1..], ids) + (if payments[0].id in ids then Max(0, payments[0].amount) else 0)
  {
    if ids != [] {
      PaidOverCons(payments, ids[1..]);
    }
  }

  lemma {:induction false} PaymentsPartition(payments: seq<Payment>, ids: seq<string>)
    requires Distinct(ids)
    ensures PaidOver(payments, ids) <= Positive(payments)
    ensures (forall p <- payments :: p.id in ids) ==> PaidOver(payments, ids) == Positive(payments)
  {
    if payments == [] {
      NothingPaid(ids);
    } else {
      PaymentsPartition(payments[1..], ids);
      PaidOverCons(payments, ids);
    }
  }

  lemma NothingPaid(ids: seq<string>)
    ensures PaidOver([], ids) == 0
  {
  }

  lemma FundedOverCons(plans: seq<PlanRow>, ids: seq<string>)
    requires plans != []
    ensures FundedOver(plans, ids) == PaidOver(plans[0].plan.goalPayments, ids) + FundedOver(plans[1..], ids)
  {
    if ids != [] {
      FundedOverCons(plans, ids[1..]);
    }
  }

  lemma NothingFunded(ids: seq<string>)
    ensures FundedOver([], ids) == 0
  {
  }

  /** Summed over distinct goals, funding per goal is at most the dashboard's goal funding, and all of it when
      every funded goal is among them. */
  lemma {:induction false} FundingPartition(plans: seq<PlanRow>, ids: seq<string>)
    requires Distinct(ids)
    ensures FundedOver(plans, ids) <= GoalsFunded(plans)
    ensures (forall row <- plans, p <- row.plan.goalPayments :: p.id in ids) ==> FundedOver(plans, ids) == GoalsFunded(plans)
  {
    if plans == [] {
      NothingFunded(ids);
    } else {
      FundingPartition(plans[1..], ids);
      FundedOverCons(plans, ids);
      PaymentsPartition(plans[0].plan.goalPayments, ids);
    }
  }

  lemma {:induction false} CoverSums(t: Tables, ids: seq<string>)
    requires GoalsCovered(t)
    ensures MovedOver(t.moves.rows, ids) <= FundedOver(t.plans, ids)
  {
    if ids != [] {
      CoverSums(t, ids[1..]);
    }
  }

  /** When every goal is covered, the clamp of the dashboard never fires. */
  lemma ClampIdle(t: Tables)
    requires GoalsCovered(t)
    ensures TotalMoved(t.moves.rows) <= GoalsFunded(t.plans)
    ensures CorpusOf(t).goalsTotal == GoalsFunded(t.plans) - TotalMoved(t.moves.rows)
  {
    var ids := GoalIds(t.moves.rows);
    MovesPartition(t.moves.rows, ids);
    FundingPartition(t.plans, ids);
    CoverSums(t, ids);
  }

  // ---------------------------------------------------------------------------------------------
  // Conservation
  // ---------------------------------------------------------------------------------------------

  predicate MovesMoneyOnly(op: Op) {
    !op.UpsertPlan? && !op.SetOpening?
  }

  lemma MovedAppend(moves: seq<GoalMove>, m: GoalMove, goalId: string)
    ensures Moved(moves + [m], goalId) == Moved(moves, goalId) + (if m.goalId == goalId then m.amount else 0)
  {
    if moves == [] {
      assert [] + [m] == [m] && [m][1..] == [];
    } else {
      assert (moves + [m])[1..] == moves[1..] + [m];
      MovedAppend(moves[1..], m, goalId);
    }
  }

  lemma MovedRemove(moves: seq<GoalMove>, i: nat, goalId: string)
    requires i < |moves| && forall m <- moves :: 0 <= m.amount
    ensures Moved(moves[..i] + moves[i + 1..], goalId) <= Moved(moves, goalId)
  {
    assert moves[0] in moves;
    if i == 0 {
      assert moves[..0] + moves[1..] == moves[1..];
    } else {
      assert (moves[..i] + moves[i + 1..])[1..] == moves[1..][..i - 1] + moves[1..][i..];
      MovedRemove(moves[1..], i - 1, goalId);
    }
  }

  /** Only goal breaks and their undos touch the goal moves; the plans stay as they are. */
  lemma MoneyMoveFrame(t: Tables, op: Op)
    requires MovesMoneyOnly(op)
    ensures Apply(t, op).plans == t.plans && Apply(t, op).opening == t.opening
    ensures !op.BreakGoal? && !op.UndoGoal? ==> Apply(t, op).moves == t.moves
  {
    if Decide(t, op).Success? {
      ApplySingle(t, Decide(t, op).value[0]);
      assert Decide(t, op).value == [Decide(t, op).value[0]];
    }
  }

  lemma GoalBreakCovered(t: Tables, goalId: string, rupees: real)
    requires GoalsCovered(t)
    ensures GoalsCovered(Apply(t, BreakGoal(goalId, rupees)))
  {
    if DecideGoal(t, goalId, rupees).Success? {
      var amount := RoundHalfUp(rupees) * RUPEE;
      BreakGoalEffect(t, goalId, rupees);
      var after := Apply(t, BreakGoal(goalId, rupees));
      forall g ensures Moved(after.moves.rows, g) <= Funded(after.plans, g) {
        MovedAppend(t.moves.rows, GoalMove(t.moves.nextId, goalId, amount), g);
      }
    }
  }

  lemma GoalUndoCovered(t: Tables, id: nat)
    requires GoalsCovered(t) && MovesStored(t.moves)
    ensures GoalsCovered(Apply(t, UndoGoal(id)))
  {
    if IndexOfMove(t.moves.rows, id).Some? {
      var i := IndexOfMove(t.moves.rows, id).value;
      UndoGoalEffect(t, id);
      var after := Apply(t, UndoGoal(id));
      forall g ensures Moved(after.moves.rows, g) <= Funded(after.plans, g) {
        MovedRemove(t.moves.rows, i, g);
      }
    }
  }

  /** Per-goal cover is kept by every transaction that leaves the plans alone. */
  lemma MoneyMoveCovered(t: Tables, op: Op)
    requires Sound(t) && GoalsCovered(t) && MovesMoneyOnly(op)
    ensures GoalsCovered(Apply(t, op))
  {
    hide Apply, Sold, Balance;
    MoneyMoveFrame(t, op);
    if op.BreakGoal? {
      GoalBreakCovered(t, op.goalId, op.rupees);
    } else if op.UndoGoal? {
      GoalUndoCovered(t, op.id);
    }
  }

  lemma TotalMovedAppend(moves: seq<GoalMove>, m: GoalMove)
    ensures TotalMoved(moves + [m]) == TotalMoved(moves) + m.amount
  {
    if moves == [] {
      assert [] + [m] == [m] && [m][1..] == [];
    } else {
      assert (moves + [m])[1..] == moves[1..] + [m];
      TotalMovedAppend(moves[1..], m);
    }
  }

  lemma TotalMovedRemove(moves: seq<GoalMove>, i: nat)
    requires i < |moves|
    ensures TotalMoved(moves[..i] + moves[i + 1..]) == TotalMoved(moves) - moves[i].amount
  {
    if i == 0 {
      assert moves[..0] + moves[1..] == moves[1..];
    } else {
      assert (moves[..i] + moves[i + 1..])[1..] == moves[1..][..i - 1] + moves[1..][i..];
      TotalMovedRemove(moves[1..], i - 1);
    }
  }

  /** What a transaction adds to the goal money moved so far. */
  function MovedBy(t: Tables, op: Op): int {
    match op
    case BreakGoal(_, rupees) => if Decide(t, op).Success? then RoundHalfUp(rupees) * RUPEE else 0
    case UndoGoal(id) =>
      (match IndexOfMove(t.moves.rows, id) case Some(i) => -t.moves.rows[i].amount case None => 0)
    case _ => 0
  }

  lemma MovedAfter(t: Tables, op: Op)
    requires MovesMoneyOnly(op)
    ensures TotalMoved(Apply(t, op).moves.rows) == TotalMoved(t.moves.rows) + MovedBy(t, op)
  {
    hide Apply, TotalMoved, RoundHalfUp, Funded, Moved;
    MoneyMoveFrame(t, op);
    match op
    case BreakGoal(goalId, rupees) =>
      BreakGoalEffect(t, goalId, rupees);
      TotalMovedAppend(t.moves.rows, GoalMove(t.moves.nextId, goalId, RoundHalfUp(rupees) * RUPEE));
    case UndoGoal(id) =>
      UndoGoalEffect(t, id);
      if IndexOfMove(t.moves.rows, id).Some? { TotalMovedRemove(t.moves.rows, IndexOfMove(t.moves.rows, id).value); }
    case _ =>
  }

  /** Whether a transaction that leaves the plans alone leaves the corpus total alone, told before it
      runs: a goal break must stay within the tenant's goal funding, an undo must start within it, and
      everything else always does. */
  predicate KeepsTotal(t: Tables, op: Op) {
    match op
    case BreakGoal(_, rupees) =>
      Decide(t, op).Success? ==> TotalMoved(t.moves.rows) + RoundHalfUp(rupees) * RUPEE <= GoalsFunded(t.plans)
    case UndoGoal(id) =>
      IndexOfMove(t.moves.rows, id).Some? ==> TotalMoved(t.moves.rows) <= GoalsFunded(t.plans)
    case _ => true
  }

  lemma MovedBySign(t: Tables, op: Op)
    requires MovesStored(t.moves)
    ensures op.BreakGoal? && Decide(t, op).Success? ==> 0 < MovedBy(t, op)
    ensures op.UndoGoal? && IndexOfMove(t.moves.rows, op.id).Some? ==> MovedBy(t, op) < 0
  {
    if op.UndoGoal? && IndexOfMove(t.moves.rows, op.id).Some? {
      assert t.moves.rows[IndexOfMove(t.moves.rows, op.id).value] in t.moves.rows;
    }
  }

  /** A money move keeps the corpus total exactly when KeepsTotal holds before it. */
  lemma MoneyMoveTotalIff(t: Tables, op: Op)
    requires Sound(t) && MovesMoneyOnly(op)
    ensures CorpusOf(Apply(t, op)).total == CorpusOf(t).total <==> KeepsTotal(t, op)
  {
    hide Apply, CorpusOf, Decide, RoundHalfUp, TotalMoved, GoalsFunded, PlanBase, WellFormed, PlansStored, Solvent;
    StepKeeps(t, op);
    MoneyMoveFrame(t, op);
    TotalsEqualIff(t, Apply(t, op));
    MovedAfter(t, op);
    MovedBySign(t, op);
  }

  lemma {:induction false} RunFrame(t: Tables, ops: seq<Op>)
    requires forall op <- ops :: MovesMoneyOnly(op)
    ensures Run(t, ops).plans == t.plans && Run(t, ops).opening == t.opening
    decreases |ops|
  {
    hide Apply;
    if ops != [] {
      assert ops[0] in ops;
      MoneyMoveFrame(t, ops[0]);
      RunFrame(Apply(t, ops[0]), ops[1..]);
    }
  }

  /** Any run of FD breaks, goal breaks, sales and undos of them leaves the corpus total unchanged when
      the goal money moved is within the goal funding at both ends, whatever it was in between. */
  lemma CorpusConserved(t: Tables, ops: seq<Op>)
    requires Sound(t) && forall op <- ops :: MovesMoneyOnly(op)
    requires TotalMoved(t.moves.rows) <= GoalsFunded(t.plans)
    requires TotalMoved(Run(t, ops).moves.rows) <= GoalsFunded(t.plans)
    ensures CorpusOf(Run(t, ops)).total == CorpusOf(t).total
  {
    hide CorpusOf, Run, Sound, TotalMoved, GoalsFunded, PlanBase;
    RunFrame(t, ops);
    RunKeeps(t, ops);
    TotalsEqualIff(t, Run(t, ops));
  }

  lemma {:induction false} RunCovered(t: Tables, ops: seq<Op>)
    requires Sound(t) && GoalsCovered(t) && forall op <- ops :: MovesMoneyOnly(op)
    ensures GoalsCovered(Run(t, ops))
    decreases |ops|
  {
    hide Apply, GoalsCovered, Sound;
    if ops != [] {
      assert ops[0] in ops;
      StepKeeps(t, ops[0]);
      MoneyMoveCovered(t, ops[0]);
      RunCovered(Apply(t, ops[0]), ops[1..]);
    }
  }

  /** In particular from any state in which each goal is covered: that condition keeps itself. */
  lemma CoveredConserved(t: Tables, ops: seq<Op>)
    requires Sound(t) && GoalsCovered(t) && forall op <- ops :: MovesMoneyOnly(op)
    ensures GoalsCovered(Run(t, ops)) && CorpusOf(Run(t, ops)).total == CorpusOf(t).total
  {
    hide CorpusOf, Run, GoalsCovered, Sound;
    RunCovered(t, ops);
    RunFrame(t, ops);
    ClampIdle(t);
    ClampIdle(Run(t, ops));
    CorpusConserved(t, ops);
  }

  // ---------------------------------------------------------------------------------------------
  // Runs in which an undo and a break change the total
  // ---------------------------------------------------------------------------------------------

  function GoalRequest(payments: seq<Payment>): PlanDto {
    EMPTY_REQUEST.(goalPayments := Some(Some(AsJson(payments))))
  }

  /** One month of goal payments and nothing else, with the given goals and moves. */
  function GoalBooks(goals: set<string>, period: Period, payments: seq<Payment>, moves: GoalMoves): Tables {
    Tables([PlanRow(period, EMPTY_PLAN.(goalPayments := payments))], Opening(0, 0, 0),
           Ledger([Contribution(0, 0, 0, period)], 1), Sales([], 0), goals, moves)
  }

  lemma GoalRequestMerged(existing: Option<Plan>, payments: seq<Payment>, base: Plan)
    requires forall p <- payments :: Canonical(p)
    requires base == existing.GetOr(EMPTY_PLAN) && base.customExpenses == [] && base.banks == map[]
    ensures Merged(existing, GoalRequest(payments), None) == base.(goalPayments := payments)
  {
    hide NormalizeGoalPayments, Canonical;
    NormalizeStored(payments);
    assert NormalizeCustomExpenses(Some([])) == [];
  }

  lemma FirstFunding(goals: set<string>, period: Period, payments: seq<Payment>)
    requires forall p <- payments :: Canonical(p)
    ensures Apply(Empty(goals), UpsertPlan(period, GoalRequest(payments))) == GoalBooks(goals, period, payments, GoalMoves([], 0))
  {
    hide Merged, Canonical;
    GoalRequestMerged(None, payments, EMPTY_PLAN);
    var plan := EMPTY_PLAN.(goalPayments := payments);
    ApplyTwo(Empty(goals), PutPlan(period, plan), PutLot(period, plan.fd));
  }

  lemma Refunding(goals: set<string>, period: Period, before: seq<Payment>, payments: seq<Payment>, moves: GoalMoves)
    requires forall p <- payments :: Canonical(p)
    ensures Apply(GoalBooks(goals, period, before, moves), UpsertPlan(period, GoalRequest(payments)))
            == GoalBooks(goals, period, payments, moves)
  {
    hide Merged, Canonical;
    var t, stored := GoalBooks(goals, period, before, moves), EMPTY_PLAN.(goalPayments := before);
    GoalRequestMerged(Some(stored), payments, stored);
    var plan := EMPTY_PLAN.(goalPayments := payments);
    ApplyTwo(t, PutPlan(period, plan), PutLot(period, plan.fd));
    assert Current(t.plans, period) == Some(stored);
    assert Others(t.plans, period) == [] + Others(t.plans[1..], period);
    assert t.plans[0 := PlanRow(period, plan)] == [PlanRow(period, plan)];
    assert t.fd.rows[0 := Contribution(0, 0, 0, period)] == t.fd.rows;
    assert Consumed(t.fd.rows, 0) == Consumed(t.fd.rows[1..], 0) == 0;
  }

  lemma FundedByOne(goalId: string, period: Period)
    ensures Funded([PlanRow(period, EMPTY_PLAN.(goalPayments := [OneRupee(goalId)]))], goalId) == RUPEE
  {
    var plans := [PlanRow(period, EMPTY_PLAN.(goalPayments := [OneRupee(goalId)]))];
    assert FundedBy([OneRupee(goalId)], goalId) == RUPEE + FundedBy([OneRupee(goalId)][1..], goalId);
    assert Funded(plans, goalId) == FundedBy([OneRupee(goalId)], goalId) + Funded(plans[1..], goalId);
  }

  function OneRupee(goalId: string): Payment {
    Payment(goalId, goalId, RUPEE)
  }

  /** The one funded rupee can be moved out, when none of this goal's was before. */
  lemma BreakAllOfOne(goals: set<string>, goalId: string, period: Period, moves: GoalMoves)
    requires goalId in goals && Moved(moves.rows, goalId) == 0
    ensures Decide(GoalBooks(goals, period, [OneRupee(goalId)], moves), BreakGoal(goalId, 1.0)).Success?
    ensures Apply(GoalBooks(goals, period, [OneRupee(goalId)], moves), BreakGoal(goalId, 1.0))
            == GoalBooks(goals, period, [OneRupee(goalId)],
                         GoalMoves(moves.rows + [GoalMove(moves.nextId, goalId, RUPEE)], moves.nextId + 1))
  {
    hide Apply, Funded, Moved;
    var t := GoalBooks(goals, period, [OneRupee(goalId)], moves);
    BreakGoalEffect(t, goalId, 1.0);
    assert RoundHalfUp(1.0) == 1;
    FundedByOne(goalId, period);
  }

  function OneMove(goalId: string): GoalMoves {
    GoalMoves([GoalMove(0, goalId, RUPEE)], 1)
  }

  lemma OneMoveTotals(goalId: string, other: string)
    ensures TotalMoved(OneMove(goalId).rows) == RUPEE && (other != goalId ==> Moved(OneMove(goalId).rows, other) == 0)
    ensures Moved([], goalId) == 0
  {
    assert OneMove(goalId).rows[1..] == [];
  }

  lemma UndoUnfunded(goals: set<string>, goalId: string, period: Period)
    requires Sound(GoalBooks(goals, period, [], OneMove(goalId)))
    ensures var t := GoalBooks(goals, period, [], OneMove(goalId));
            CorpusOf(Apply(t, UndoGoal(0))).total != CorpusOf(t).total
  {
    hide Sound, CorpusOf, Apply, TotalMoved;
    var t := GoalBooks(goals, period, [], OneMove(goalId));
    MoneyMoveTotalIff(t, UndoGoal(0));
    OneMoveTotals(goalId, goalId);
    assert GoalsFunded(t.plans) == Positive([]) + GoalsFunded(t.plans[1..]);
  }

  lemma BreakBeyondFunding(goals: set<string>, goalId: string, other: string, period: Period)
    requires other in goals && other != goalId
    requires Sound(GoalBooks(goals, period, [OneRupee(other)], OneMove(goalId)))
    ensures var t := GoalBooks(goals, period, [OneRupee(other)], OneMove(goalId));
            CorpusOf(Apply(t, BreakGoal(other, 1.0))).total != CorpusOf(t).total
  {
    hide Sound, CorpusOf, Apply, TotalMoved, Decide;
    var t := GoalBooks(goals, period, [OneRupee(other)], OneMove(goalId));
    OneMoveTotals(goalId, other);
    BreakAllOfOne(goals, other, period, OneMove(goalId));
    MoneyMoveTotalIff(t, BreakGoal(other, 1.0));
    assert RoundHalfUp(1.0) == 1;
    assert Positive([OneRupee(other)]) == RUPEE + Positive([OneRupee(other)][1..]);
    assert GoalsFunded(t.plans) == Positive([OneRupee(other)]) + GoalsFunded(t.plans[1..]);
  }

  /** Fund goal g with one rupee, move the rupee out, then plan the given payments instead. */
  function Refunded(goals: set<string>, period: Period, payments: seq<Payment>): Tables {
    Run(Empty(goals), [UpsertPlan(period, GoalRequest([OneRupee("g")])), BreakGoal("g", 1.0),
                       UpsertPlan(period, GoalRequest(payments))])
  }

  lemma RefundedIs(goals: set<string>, period: Period, payments: seq<Payment>)
    requires "g" in goals && forall p <- payments :: Canonical(p)
    ensures Refunded(goals, period, payments) == GoalBooks(goals, period, payments, OneMove("g"))
    ensures Sound(Refunded(goals, period, payments))
  {
    hide Sound, Apply, Run, GoalRequest, GoalBooks, Canonical, OneRupee, Moved;
    var fund, out := UpsertPlan(period, GoalRequest([OneRupee("g")])), BreakGoal("g", 1.0);
    var refund := UpsertPlan(period, GoalRequest(payments));
    OneRupeeCanonical();
    FirstFunding(goals, period, [OneRupee("g")]);
    OneMoveTotals("g", "g");
    BreakAllOfOne(goals, "g", period, GoalMoves([], 0));
    assert [] + [GoalMove(0, "g", RUPEE)] == [GoalMove(0, "g", RUPEE)];
    Refunding(goals, period, [OneRupee("g")], payments, OneMove("g"));
    RunThree(Empty(goals), fund, out, refund);
    EveryRunSound(goals, [fund, out, refund]);
  }

  lemma OneRupeeCanonical()
    ensures Canonical(OneRupee("g")) && Canonical(OneRupee("h"))
  {
    assert Trim("g") == "g" && Trim("h") == "h";
  }

  /** Fund a goal with one rupee, move the rupee out, take the funding back out of the plan: now undoing
      the move makes the corpus smaller. */
  lemma UndoCanMoveTotal(period: Period)
    ensures var t := Refunded({"g"}, period, []);
            CorpusOf(Apply(t, UndoGoal(0))).total != CorpusOf(t).total
  {
    hide Sound, CorpusOf, Apply, Refunded, GoalBooks;
    RefundedIs({"g"}, period, []);
    UndoUnfunded({"g"}, "g", period);
  }

  /** Fund one goal, move the rupee out, plan it for another goal instead: now moving it out of that goal
      too makes the corpus larger. */
  lemma BreakCanMoveTotal(period: Period)
    ensures var t := Refunded({"g", "h"}, period, [OneRupee("h")]);
            CorpusOf(Apply(t, BreakGoal("h", 1.0))).total != CorpusOf(t).total
  {
    hide Sound, CorpusOf, Apply, Refunded, GoalBooks, OneRupee, Canonical;
    OneRupeeCanonical();
    RefundedIs({"g", "h"}, period, [OneRupee("h")]);
    BreakBeyondFunding({"g", "h"}, "g", "h", period);
  }

  lemma RunThree(t: Tables, a: Op, b: Op, c: Op)
    ensures Run(t, [a, b, c]) == Apply(Apply(Apply(t, a), b), c)
  {
    hide Apply;
    assert [a, b, c][1..] == [b, c] && [b, c][1..] == [c] && [c][1..] == [];
    assert Run(t, [a, b, c]) == Run(Apply(t, a), [b, c]) == Run(Apply(Apply(t, a), b), [c]);
    assert Run(Apply(Apply(t, a), b), [c]) == Run(Apply(Apply(Apply(t, a), b), c), []);
  }
}
