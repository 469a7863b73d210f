/**
 The one write outside the locks: a settings update that names no opening balance writes back the ones
 it read before, without a lock and without a check. What other transactions committed between the read
 and the write decides whether the investment balances survive it.
 */
module SettingsWriteBack {
  import opened Wrappers
  import opened FdLedger
  import opened Books
  import opened BooksInvariant
  import Interleaving

  function WriteBack(db: Tables, readBefore: Opening): Tables {
    db.(opening := readBefore)
  }

  /** The purchase of one month, nothing when the month has no plan. */
  function MonthPurchase(plans: seq<PlanRow>, period: Period, asset: Asset): int {
    Purchase(Current(plans, period).GetOr(EMPTY_PLAN), asset)
  }

  /** What one transaction sells of an asset, net of what it purchases of it. */
  function Outflow(t: Tables, op: Op, asset: Asset): int {
    match op
    case Sell(sold, amount) => if Decide(t, op).Success? && sold == asset then amount else 0
    case UndoSale(id) =>
      (match IndexOfSale(t.sales.rows, id)
       case Some(i) => if t.sales.rows[i].asset == asset then -t.sales.rows[i].amount else 0
       case None => 0)
    case UpsertPlan(period, _) => MonthPurchase(t.plans, period, asset) - MonthPurchase(Apply(t, op).plans, period, asset)
    case _ => 0
  }

  function NetOutflow(t: Tables, ops: seq<Op>, asset: Asset): int
    decreases |ops|
  {
    if ops == [] then 0 else Outflow(t, ops[0], asset) + NetOutflow(Apply(t, ops[0]), ops[1..], asset)
  }

  lemma {:induction false} PurchasedSplit(plans: seq<PlanRow>, period: Period, asset: Asset)
    requires UniqueMonths(plans)
    ensures Purchased(plans, asset) == MonthPurchase(plans, period, asset) + Purchased(Others(plans, period), asset)
  {
    if plans == [] {
    } else if plans[0].period == period {
      assert forall row <- plans[1..] :: row.period != period by {
        forall row <- plans[1..] ensures row.period != period {
          var i :| 0 <= i < |plans[1..]| && plans[1..][i] == row;
          assert plans[i + 1] == row;
        }
      }
      OthersUnused(plans[1..], period);
      assert Others(plans, period) == [] + plans[1..] == plans[1..];
    } else {
      PurchasedSplit(plans[1..], period, asset);
      var rest := Others(plans[1..], period);
      assert Others(plans, period) == [plans[0]] + rest && ([plans[0]] + rest)[1..] == rest;
    }
  }

  /** The asset's purchases minus its sales. */
  function Bought(t: Tables, asset: Asset): int {
    Purchased(t.plans, asset) - Sold(t.sales.rows, asset)
  }

  lemma PlanOutflow(t: Tables, period: Period, dto: PlanDto, asset: Asset)
    requires PlansStored(t.plans)
    ensures Bought(Apply(t, UpsertPlan(period, dto)), asset) == Bought(t, asset) - Outflow(t, UpsertPlan(period, dto), asset)
  {
    hide Purchased, Others, Sold, Merged, ValidatePlanWrite, Sync, PutLotRow, PutPlanRow;
    if DecidePlan(t, period, dto).Success? {
      var fd := RequestedPacket(dto).value;
      var saved := Merged(Current(t.plans, period), dto, fd);
      ApplyTwo(t, PutPlan(period, saved), PutLot(period, saved.fd));
      PurchasedSplit(t.plans, period, asset);
      PurchasedAfterPut(t.plans, period, saved, asset);
      CurrentAfterPut(t.plans, period, saved);
    }
  }

  lemma OutflowStep(t: Tables, op: Op, asset: Asset)
    requires Sound(t)
    ensures Bought(Apply(t, op), asset) == Bought(t, asset) - Outflow(t, op, asset)
    ensures !op.SetOpening? ==> Apply(t, op).opening == t.opening
  {
    hide Apply, Purchased, Sold, Balance, WellFormed, PlansStored, Mirrors, Merged, BreakInserts, Funded, Moved;
    match op
    case UpsertPlan(period, dto) =>
      PlanOutflow(t, period, dto, asset);
      PlanKeepsOpening(t, period, dto);
    case BreakFd(quantity, denomination) => BreakFdEffect(t, quantity, denomination);
    case UndoFd(id) => UndoFdEffect(t, id);
    case SetOpening(next) => OpeningEffect(t, next);
    case Sell(sold, amount) =>
      SellEffect(t, sold, amount);
      SoldSnoc(t.sales.rows, Sale(t.sales.nextId, sold, amount), asset);
    case UndoSale(id) =>
      UndoSaleEffect(t, id);
      if IndexOfSale(t.sales.rows, id).Some? { SoldRemove(t.sales.rows, IndexOfSale(t.sales.rows, id).value, asset); }
    case BreakGoal(goalId, rupees) => BreakGoalEffect(t, goalId, rupees);
    case UndoGoal(id) => UndoGoalEffect(t, id);
  }

  lemma PlanKeepsOpening(t: Tables, period: Period, dto: PlanDto)
    ensures Apply(t, UpsertPlan(period, dto)).opening == t.opening
  {
    hide Merged, ValidatePlanWrite, Sync, PutLotRow, PutPlanRow;
    if DecidePlan(t, period, dto).Success? {
      var saved := Merged(Current(t.plans, period), dto, RequestedPacket(dto).value);
      ApplyTwo(t, PutPlan(period, saved), PutLot(period, saved.fd));
    }
  }

  lemma OpeningEffect(t: Tables, next: Opening)
    ensures Apply(t, SetOpening(next)) == if DecideOpening(t, next).Success? then t.(opening := next) else t
  {
    hide Purchased, Sold;
    ApplySingle(t, PutOpening(next));
  }

  lemma {:induction false} RunOutflow(t: Tables, ops: seq<Op>, asset: Asset)
    requires Sound(t)
    ensures Bought(Run(t, ops), asset) == Bought(t, asset) - NetOutflow(t, ops, asset)
    ensures (forall op <- ops :: !op.SetOpening?) ==> Run(t, ops).opening == t.opening
    decreases |ops|
  {
    hide Apply, Sound, Bought, Outflow;
    if ops != [] {
      assert ops[0] in ops;
      OutflowStep(t, ops[0], asset);
      StepKeeps(t, ops[0]);
      RunOutflow(Apply(t, ops[0]), ops[1..], asset);
    }
  }

  lemma SoundUnlessOpening(db: Tables, opening: Opening)
    requires Sound(db)
    ensures Sound(WriteBack(db, opening)) <==>
            0 <= Prev(opening, MF) + Bought(db, MF) && 0 <= Prev(opening, STOCKS) + Bought(db, STOCKS)
  {
  }

  /** Whatever ran between the read and the write-back: it keeps the books sound exactly when, for each
      asset, that run sold net of its purchases no more than the balance at the time of the read. */
  lemma WriteBackSolventIff(t: Tables, ops: seq<Op>)
    requires Sound(t)
    ensures Sound(WriteBack(Run(t, ops), t.opening)) <==>
            NetOutflow(t, ops, MF) <= Balance(t, MF) && NetOutflow(t, ops, STOCKS) <= Balance(t, STOCKS)
  {
    hide Sound, Run, NetOutflow, Purchased, Sold;
    RunKeeps(t, ops);
    RunOutflow(t, ops, MF);
    RunOutflow(t, ops, STOCKS);
    SoundUnlessOpening(Run(t, ops), t.opening);
  }

  /** The same over the steps of any number of clients between the read and the write. */
  lemma WriteBackAmongClients(s: Interleaving.System, schedule: seq<(nat, Interleaving.Action)>)
    requires Interleaving.Consistent(s) && Sound(s.db)
    ensures var ops := Interleaving.Committed(s, schedule);
            Sound(WriteBack(Interleaving.Execute(s, schedule).db, s.db.opening)) <==>
            NetOutflow(s.db, ops, MF) <= Balance(s.db, MF) && NetOutflow(s.db, ops, STOCKS) <= Balance(s.db, STOCKS)
  {
    hide *;
    Interleaving.Serializable(s, schedule);
    WriteBackSolventIff(s.db, Interleaving.Committed(s, schedule));
  }

  /** When nothing in between set an opening balance, the write-back changes nothing. */
  lemma WriteBackHarmless(t: Tables, ops: seq<Op>)
    requires Sound(t) && forall op <- ops :: !op.SetOpening?
    ensures WriteBack(Run(t, ops), t.opening) == Run(t, ops)
  {
    hide Sound, Run;
    RunOutflow(t, ops, MF);
  }

  lemma RaiseAndSell()
    ensures Run(Empty({}), [SetOpening(Opening(0, 100, 0)), Sell(MF, 100)]) ==
            Empty({}).(opening := Opening(0, 100, 0), sales := Sales([Sale(0, MF, 100)], 1))
  {
    var raise, sell := SetOpening(Opening(0, 100, 0)), Sell(MF, 100);
    var one := Empty({}).(opening := Opening(0, 100, 0));
    ApplySingle(Empty({}), PutOpening(Opening(0, 100, 0)));
    assert Apply(Empty({}), raise) == one;
    ApplySingle(one, InsertSale(MF, 100));
    assert Balance(one, MF) == 100;
    var two := Apply(one, sell);
    assert two.sales.rows == [] + [Sale(0, MF, 100)];
    assert [raise, sell][1..] == [sell] && [sell][1..] == [];
    assert Run(Empty({}), [raise, sell]) == Run(one, [sell]) == Run(two, []);
  }

  /** And it can break them: read, then another client raises the opening balance and sells it, then
      the write-back. */
  lemma WriteBackCanOversell()
    ensures var before := Empty({});
            var after := Run(before, [SetOpening(Opening(0, 100, 0)), Sell(MF, 100)]);
            Sound(after) && Balance(WriteBack(after, before.opening), MF) == -100
  {
    hide Run, Sound;
    RaiseAndSell();
    EveryRunSound({}, [SetOpening(Opening(0, 100, 0)), Sell(MF, 100)]);
    assert Sold([Sale(0, MF, 100)], MF) == 100 + Sold([Sale(0, MF, 100)][1..], MF);
  }
}
