/**
 All money tables of one tenant and the transactions that change them: monthly plans, the opening
 balances, the FD ledger, investment sales and goal cash moves. A transaction first decides (it reads
 and checks, and may be rejected) and then applies row-level effects; a rejected one has none.
 */
module Books {
  import opened Wrappers
  import opened FdLedger
  import opened Payments

  datatype Asset = MF | STOCKS

  datatype Plan = Plan(
    salary: int, otherSources: int, rent: int, cook: int, bills: int, otherExpenses: int, basicCcSpent: int,
    sipMf: int, stocks: int, savings: int, stash: int, fd: Packet,
    goalPayments: seq<Payment>, loanPayments: seq<Payment>, customExpenses: seq<Expense>,
    banks: map<string, int>, remarks: string)

  datatype PlanRow = PlanRow(period: Period, plan: Plan)

  datatype Opening = Opening(liquid: int, mf: int, stocks: int)

  datatype Sale = Sale(id: nat, asset: Asset, amount: int)
  datatype Sales = Sales(rows: seq<Sale>, nextId: nat)

  datatype GoalMove = GoalMove(id: nat, goalId: string, amount: int)
  datatype GoalMoves = GoalMoves(rows: seq<GoalMove>, nextId: nat)

  datatype Tables = Tables(plans: seq<PlanRow>, opening: Opening, fd: Ledger, sales: Sales, goals: set<string>, moves: GoalMoves)

  /** A plan request: every omitted field keeps the stored value, except the custom expenses and the
      banks, which an omission empties. In the lists, Some(None) is a value that is not a list. */
  datatype PlanDto = PlanDto(
    salary: Option<int>, otherSources: Option<int>, rent: Option<int>, cook: Option<int>, bills: Option<int>,
    otherExpenses: Option<int>, basicCcSpent: Option<int>, sipMf: Option<int>, stocks: Option<int>,
    savings: Option<int>, stash: Option<int>, fd: Option<RawPacket>, goalPayments: Option<Option<seq<RawItem>>>,
    loanPayments: Option<Option<seq<RawItem>>>, customExpenses: Option<Option<seq<RawExpense>>>,
    banks: Option<RawBanks>, remarks: Option<string>)

  datatype Op =
    | UpsertPlan(period: Period, dto: PlanDto)
    | SetOpening(opening: Opening)
    | BreakFd(quantity: int, denomination: Denomination)
    | UndoFd(id: nat)
    | Sell(asset: Asset, amount: int)
    | UndoSale(id: nat)
    | BreakGoal(goalId: string, rupees: real)
    | UndoGoal(id: nat)

  datatype Error =
    | Fd(error: FdError)
    | BelowSold(asset: Asset)
    | BadSaleAmount
    | SaleExceeds(available: int)
    | NoSuchSale
    | BadGoalAmount
    | NoSuchGoal
    | GoalExceeds(remaining: int)
    | NoSuchMove

  /** One row-level write. */
  datatype Effect =
    | PutPlan(period: Period, plan: Plan)
    | PutLot(period: Period, packet: Packet)
    | PutOpening(opening: Opening)
    | InsertBreaks(rows: seq<Entry>)
    | DeleteBreak(id: nat)
    | InsertSale(asset: Asset, amount: int)
    | DeleteSale(id: nat)
    | InsertMove(goalId: string, amount: int)
    | DeleteMove(id: nat)

  // ---------------------------------------------------------------------------------------------
  // Plans
  // ---------------------------------------------------------------------------------------------

  function IndexOfPlan(plans: seq<PlanRow>, period: Period): (r: Option<nat>)
    ensures r.Some? ==> r.value < |plans| && plans[r.value].period == period
    ensures r.None? ==> forall row <- plans :: row.period != period
  {
    if plans == [] then None
    else if plans[0].period == period then Some(0)
    else match IndexOfPlan(plans[1..], period)
      case Some(i) => Some(i + 1)
      case None => None
  }

  function Current(plans: seq<PlanRow>, period: Period): Option<Plan> {
    match IndexOfPlan(plans, period)
    case Some(i) => Some(plans[i].plan)
    case None => None
  }

  function Others(plans: seq<PlanRow>, period: Period): seq<PlanRow> {
    if plans == [] then []
    else (if plans[0].period == period then [] else [plans[0]]) + Others(plans[1..], period)
  }

  function PutPlanRow(plans: seq<PlanRow>, period: Period, plan: Plan): seq<PlanRow> {
    match IndexOfPlan(plans, period)
    case Some(i) => plans[i := PlanRow(period, plan)]
    case None => plans + [PlanRow(period, plan)]
  }

  const EMPTY_PLAN := Plan(0, 0, 0, 0, 0, 0, 0, 0, 0, 0, 0, Packet(0, 0), [], [], [], map[], "")

  /** What the upsert stores: the update over an existing row, or the create with its defaults. */
  function Merged(existing: Option<Plan>, dto: PlanDto, fd: Option<Packet>): Plan {
    var base := existing.GetOr(EMPTY_PLAN);
    Plan(
      dto.salary.GetOr(base.salary), dto.otherSources.GetOr(base.otherSources), dto.rent.GetOr(base.rent),
      dto.cook.GetOr(base.cook), dto.bills.GetOr(base.bills), dto.otherExpenses.GetOr(base.otherExpenses),
      dto.basicCcSpent.GetOr(base.basicCcSpent), dto.sipMf.GetOr(base.sipMf), dto.stocks.GetOr(base.stocks),
      dto.savings.GetOr(base.savings), dto.stash.GetOr(base.stash), fd.GetOr(base.fd),
      (match dto.goalPayments case Some(items) => NormalizeGoalPayments(items) case None => base.goalPayments),
      (match dto.loanPayments case Some(items) => NormalizeLoanPayments(items) case None => base.loanPayments),
      NormalizeCustomExpenses(dto.customExpenses.GetOr(Some([]))),
      NormalizeBanks(dto.banks.GetOr(NotARecord)),
      dto.remarks.GetOr(base.remarks))
  }

  // ---------------------------------------------------------------------------------------------
  // Investments
  // ---------------------------------------------------------------------------------------------

  function Purchase(plan: Plan, asset: Asset): int {
    match asset
    case MF => plan.sipMf
    case STOCKS => plan.stocks
  }

  function Purchased(plans: seq<PlanRow>, asset: Asset): int {
    if plans == [] then 0 else Purchase(plans[0].plan, asset) + Purchased(plans[1..], asset)
  }

  function Sold(sales: seq<Sale>, asset: Asset): int {
    if sales == [] then 0 else (if sales[0].asset == asset then sales[0].amount else 0) + Sold(sales[1..], asset)
  }

  function Prev(opening: Opening, asset: Asset): int {
    match asset
    case MF => opening.mf
    case STOCKS => opening.stocks
  }

  function Balance(t: Tables, asset: Asset): int {
    Prev(t.opening, asset) + Purchased(t.plans, asset) - Sold(t.sales.rows, asset)
  }

  function IndexOfSale(sales: seq<Sale>, id: nat): (r: Option<nat>)
    ensures r.Some? ==> r.value < |sales| && sales[r.value].id == id
    ensures r.None? ==> forall s <- sales :: s.id != id
  {
    if sales == [] then None
    else if sales[0].id == id then Some(0)
    else match IndexOfSale(sales[1..], id)
      case Some(i) => Some(i + 1)
      case None => None
  }

  /** lockAndValidatePlanWrite: purchases with the edited month replaced must still cover the sales. */
  function ValidatePlanWrite(plans: seq<PlanRow>, opening: Opening, sales: seq<Sale>, period: Period,
                             sipMf: Option<int>, stocks: Option<int>): Result<(), Error>
  {
    var current := Current(plans, period).GetOr(EMPTY_PLAN);
    var others := Others(plans, period);
    if opening.mf + (sipMf.GetOr(current.sipMf) + Purchased(others, MF)) < Sold(sales, MF) then Failure(BelowSold(MF))
    else if opening.stocks + (stocks.GetOr(current.stocks) + Purchased(others, STOCKS)) < Sold(sales, STOCKS)
    then Failure(BelowSold(STOCKS))
    else Success(())
  }

  // ---------------------------------------------------------------------------------------------
  // Goals
  // ---------------------------------------------------------------------------------------------

  function FundedBy(payments: seq<Payment>, goalId: string): (r: int)
    ensures 0 <= r
  {
    if payments == [] then 0
    else (if payments[0].id == goalId && payments[0].amount > 0 then payments[0].amount else 0) + FundedBy(payments[1..], goalId)
  }

  function Funded(plans: seq<PlanRow>, goalId: string): (r: int)
    ensures 0 <= r
  {
    if plans == [] then 0 else FundedBy(plans[0].plan.goalPayments, goalId) + Funded(plans[1..], goalId)
  }

  function Moved(moves: seq<GoalMove>, goalId: string): int {
    if moves == [] then 0 else (if moves[0].goalId == goalId then moves[0].amount else 0) + Moved(moves[1..], goalId)
  }

  function IndexOfMove(moves: seq<GoalMove>, id: nat): (r: Option<nat>)
    ensures r.Some? ==> r.value < |moves| && moves[r.value].id == id
    ensures r.None? ==> forall m <- moves :: m.id != id
  {
    if moves == [] then None
    else if moves[0].id == id then Some(0)
    else match IndexOfMove(moves[1..], id)
      case Some(i) => Some(i + 1)
      case None => None
  }

  /** Goal breaks are rounded to whole rupees; amounts are kept in the smallest unit. */
  const RUPEE := 100

  function RoundHalfUp(x: real): int {
    (x + 0.5).Floor
  }

  /** The whole number nearest to x; of two that are equally near, the larger one. */
  ghost predicate Nearest(x: real, n: int) {
    x - 0.5 < n as real <= x + 0.5
  }

  lemma RoundsToNearest(x: real)
    ensures Nearest(x, RoundHalfUp(x)) && forall n :: Nearest(x, n) ==> n == RoundHalfUp(x)
  {
  }

  // ---------------------------------------------------------------------------------------------
  // Deciding and applying
  // ---------------------------------------------------------------------------------------------

  /** The packet a plan request carries, None when it leaves the stored one alone. */
  function RequestedPacket(dto: PlanDto): (r: Result<Option<Packet>, Error>)
    ensures r.Success? && r.value.Some? ==> ValidPacket(r.value.value)
  {
    if dto.fd.None? then Success(None)
    else match NormalizePacket(dto.fd.value)
      case Success(p) => Success(Some(p))
      case Failure(e) => Failure(Fd(e))
  }

  function DecidePlan(t: Tables, period: Period, dto: PlanDto): Result<seq<Effect>, Error> {
    match RequestedPacket(dto)
    case Failure(e) => Failure(e)
    case Success(fd) =>
      match ValidatePlanWrite(t.plans, t.opening, t.sales.rows, period, dto.sipMf, dto.stocks)
      case Failure(e) => Failure(e)
      case Success(_) =>
        var saved := Merged(Current(t.plans, period), dto, fd);
        match Sync(t.fd, period, saved.fd)
        case Failure(e) => Failure(Fd(e))
        case Success(_) => Success([PutPlan(period, saved), PutLot(period, saved.fd)])
  }

  function DecideOpening(t: Tables, next: Opening): Result<seq<Effect>, Error> {
    if next.mf + Purchased(t.plans, MF) < Sold(t.sales.rows, MF) then Failure(BelowSold(MF))
    else if next.stocks + Purchased(t.plans, STOCKS) < Sold(t.sales.rows, STOCKS) then Failure(BelowSold(STOCKS))
    else Success([PutOpening(next)])
  }

  function DecideSell(t: Tables, asset: Asset, amount: int): Result<seq<Effect>, Error> {
    if amount <= 0 then Failure(BadSaleAmount)
    else if amount > Balance(t, asset) then Failure(SaleExceeds(Balance(t, asset)))
    else Success([InsertSale(asset, amount)])
  }

  function DecideGoal(t: Tables, goalId: string, rupees: real): Result<seq<Effect>, Error> {
    var rounded := RoundHalfUp(rupees);
    var remaining := Max(0, Funded(t.plans, goalId) - Moved(t.moves.rows, goalId));
    if rounded < 1 then Failure(BadGoalAmount)
    else if goalId !in t.goals then Failure(NoSuchGoal)
    else if rounded * RUPEE > remaining then Failure(GoalExceeds(remaining))
    else Success([InsertMove(goalId, rounded * RUPEE)])
  }

  function Decide(t: Tables, op: Op): Result<seq<Effect>, Error> {
    match op
    case UpsertPlan(period, dto) => DecidePlan(t, period, dto)
    case SetOpening(next) => DecideOpening(t, next)
    case BreakFd(quantity, denomination) =>
      (match BreakInserts(t.fd, quantity, denomination)
       case Success(rows) => Success([InsertBreaks(rows)])
       case Failure(e) => Failure(Fd(e)))
    case UndoFd(id) => if IndexOfBreak(t.fd.rows, id).Some? then Success([DeleteBreak(id)]) else Failure(Fd(NoSuchBreak))
    case Sell(asset, amount) => DecideSell(t, asset, amount)
    case UndoSale(id) => if IndexOfSale(t.sales.rows, id).Some? then Success([DeleteSale(id)]) else Failure(NoSuchSale)
    case BreakGoal(goalId, rupees) => DecideGoal(t, goalId, rupees)
    case UndoGoal(id) => if IndexOfMove(t.moves.rows, id).Some? then Success([DeleteMove(id)]) else Failure(NoSuchMove)
  }

  function PutLotRow(ledger: Ledger, period: Period, packet: Packet): Ledger {
    match IndexOfPeriod(ledger.rows, period)
    case Some(i) => ledger.(rows := ledger.rows[i := Contribution(ledger.rows[i].id, packet.amount, packet.quantity, period)])
    case None => Ledger(ledger.rows + [Contribution(ledger.nextId, packet.amount, packet.quantity, period)], ledger.nextId + 1)
  }

  function ApplyOne(t: Tables, e: Effect): Tables {
    match e
    case PutPlan(period, plan) => t.(plans := PutPlanRow(t.plans, period, plan))
    case PutLot(period, packet) => t.(fd := PutLotRow(t.fd, period, packet))
    case PutOpening(opening) => t.(opening := opening)
    case InsertBreaks(rows) => t.(fd := Insert(t.fd, rows))
    case DeleteBreak(id) =>
      (match IndexOfBreak(t.fd.rows, id)
       case Some(i) => t.(fd := t.fd.(rows := RemoveAt(t.fd.rows, i)))
       case None => t)
    case InsertSale(asset, amount) =>
      t.(sales := Sales(t.sales.rows + [Sale(t.sales.nextId, asset, amount)], t.sales.nextId + 1))
    case DeleteSale(id) =>
      (match IndexOfSale(t.sales.rows, id)
       case Some(i) => t.(sales := t.sales.(rows := t.sales.rows[..i] + t.sales.rows[i + 1..]))
       case None => t)
    case InsertMove(goalId, amount) =>
      t.(moves := GoalMoves(t.moves.rows + [GoalMove(t.moves.nextId, goalId, amount)], t.moves.nextId + 1))
    case DeleteMove(id) =>
      (match IndexOfMove(t.moves.rows, id)
       case Some(i) => t.(moves := t.moves.(rows := t.moves.rows[..i] + t.moves.rows[i + 1..]))
       case None => t)
  }

  function ApplyAll(t: Tables, effects: seq<Effect>): Tables
    decreases |effects|
  {
    if effects == [] then t else ApplyAll(ApplyOne(t, effects[0]), effects[1..])
  }

  /** One committed or rejected transaction. */
  function Apply(t: Tables, op: Op): Tables {
    match Decide(t, op)
    case Success(effects) => ApplyAll(t, effects)
    case Failure(_) => t
  }

  function Run(t: Tables, ops: seq<Op>): Tables
    decreases |ops|
  {
    if ops == [] then t else Run(Apply(t, ops[0]), ops[1..])
  }

  /** A tenant before its first plan; which goals exist is up to the goal list. */
  function Empty(goals: set<string>): Tables {
    Tables([], Opening(0, 0, 0), Ledger([], 0), Sales([], 0), goals, GoalMoves([], 0))
  }
}
