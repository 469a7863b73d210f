/**
 What every transaction of the books keeps, over every run: the FD ledger is well formed and mirrors
 the plans row by row, and no asset has sold more than it holds.
 */
module BooksInvariant {
  import opened Wrappers
  import opened FdLedger
  import FdRuns
  import opened Payments
  import opened Books

  /** The lots of the ledger are the packets of the plans, month by month. */
  ghost predicate Mirrors(plans: seq<PlanRow>, lots: seq<Entry>)
    requires forall e <- lots :: e.Contribution?
  {
    && |lots| == |plans|
    && forall i :: 0 <= i < |plans| ==>
                     && lots[i].period == plans[i].period
                     && lots[i].amount == plans[i].plan.fd.amount
                     && lots[i].quantity == plans[i].plan.fd.quantity
  }

  ghost predicate UniqueMonths(plans: seq<PlanRow>) {
    forall i, j :: 0 <= i < j < |plans| ==> plans[i].period != plans[j].period
  }

  ghost predicate ListsCanonical(plan: Plan) {
    && (forall p <- plan.goalPayments :: Canonical(p))
    && (forall p <- plan.loanPayments :: Named(p))
    && (forall e <- plan.customExpenses :: Labelled(e))
  }

  ghost predicate PlansStored(plans: seq<PlanRow>) {
    && UniqueMonths(plans)
    && (forall row <- plans :: ValidPacket(row.plan.fd))
    && (forall row <- plans :: ListsCanonical(row.plan))
  }

  ghost predicate Solvent(t: Tables) {
    0 <= Balance(t, MF) && 0 <= Balance(t, STOCKS)
  }

  ghost predicate SalesStored(sales: Sales) {
    && (forall s <- sales.rows :: 0 < s.amount && s.id < sales.nextId)
    && (forall i, j :: 0 <= i < j < |sales.rows| ==> sales.rows[i].id != sales.rows[j].id)
  }

  ghost predicate MovesStored(moves: GoalMoves) {
    && (forall m <- moves.rows :: RUPEE <= m.amount && m.id < moves.nextId)
    && (forall i, j :: 0 <= i < j < |moves.rows| ==> moves.rows[i].id != moves.rows[j].id)
  }

  ghost predicate Sound(t: Tables) {
    && PlansStored(t.plans)
    && WellFormed(t.fd)
    && Mirrors(t.plans, Contributions(t.fd.rows))
    && SalesStored(t.sales)
    && MovesStored(t.moves)
    && Solvent(t)
  }

  // ---------------------------------------------------------------------------------------------
  // Investments
  // ---------------------------------------------------------------------------------------------

  lemma OthersUnused(plans: seq<PlanRow>, period: Period)
    requires forall row <- plans :: row.period != period
    ensures Others(plans, period) == plans
  {
    if plans != [] {
      OthersUnused(plans[1..], period);
    }
  }

  /** The purchases after a plan write are the validated figure: the new month plus the other months. */
  lemma {:induction false} PurchasedAfterPut(plans: seq<PlanRow>, period: Period, plan: Plan, asset: Asset)
    requires UniqueMonths(plans)
    ensures Purchased(PutPlanRow(plans, period, plan), asset) == Purchase(plan, asset) + Purchased(Others(plans, period), asset)
  {
    if plans == [] {
      assert PutPlanRow(plans, period, plan) == [PlanRow(period, plan)];
      assert Purchased([PlanRow(period, plan)], asset) == Purchase(plan, asset) + Purchased([PlanRow(period, plan)][1..], asset);
    } else if plans[0].period == period {
      forall row <- plans[1..] ensures row.period != period {
        var i :| 0 <= i < |plans[1..]| && plans[1..][i] == row;
        assert plans[i + 1] == row;
      }
      OthersUnused(plans[1..], period);
      assert [] + Others(plans[1..], period) == plans[1..];
      assert PutPlanRow(plans, period, plan)[1..] == plans[1..];
    } else {
      PurchasedAfterPut(plans[1..], period, plan, asset);
      assert PutPlanRow(plans, period, plan)[1..] == PutPlanRow(plans[1..], period, plan);
      var rest := Others(plans[1..], period);
      assert ([plans[0]] + rest)[1..] == rest;
    }
  }

  lemma CurrentAfterPut(plans: seq<PlanRow>, period: Period, plan: Plan)
    ensures Current(PutPlanRow(plans, period, plan), period) == Some(plan)
  {
    var after := PutPlanRow(plans, period, plan);
    match IndexOfPlan(plans, period) {
      case Some(i) => IndexStays(plans, i, PlanRow(period, plan));
      case None =>
        assert after[|plans|] in after;
        IndexAppended(plans, PlanRow(period, plan));
    }
  }

  lemma IndexStays(plans: seq<PlanRow>, i: nat, row: PlanRow)
    requires IndexOfPlan(plans, row.period) == Some(i)
    ensures IndexOfPlan(plans[i := row], row.period) == Some(i)
  {
    if i > 0 {
      assert plans[i := row][1..] == plans[1..][i - 1 := row];
      IndexStays(plans[1..], i - 1, row);
    }
  }

  lemma IndexAppended(plans: seq<PlanRow>, row: PlanRow)
    requires IndexOfPlan(plans, row.period).None?
    ensures IndexOfPlan(plans + [row], row.period) == Some(|plans|)
  {
    if plans == [] {
      assert [] + [row] == [row];
    } else {
      assert (plans + [row])[1..] == plans[1..] + [row];
      IndexAppended(plans[1..], row);
    }
  }

  lemma SoldAppend(a: seq<Sale>, b: seq<Sale>, asset: Asset)
    ensures Sold(a + b, asset) == Sold(a, asset) + Sold(b, asset)
  {
    if a == [] {
      assert a + b == b;
    } else {
      assert (a + b)[1..] == a[1..] + b;
      SoldAppend(a[1..], b, asset);
    }
  }

  lemma SoldRemove(sales: seq<Sale>, i: nat, asset: Asset)
    requires i < |sales|
    ensures Sold(sales[..i] + sales[i + 1..], asset) ==
            Sold(sales, asset) - (if sales[i].asset == asset then sales[i].amount else 0)
  {
    assert sales == sales[..i] + [sales[i]] + sales[i + 1..];
    SoldAppend(sales[..i] + [sales[i]], sales[i + 1..], asset);
    SoldAppend(sales[..i], [sales[i]], asset);
    SoldAppend(sales[..i], sales[i + 1..], asset);
    assert [sales[i]][1..] == [];
  }

  // ---------------------------------------------------------------------------------------------
  // The mirror
  // ---------------------------------------------------------------------------------------------

  lemma PutLotIsSync(ledger: Ledger, period: Period, packet: Packet)
    requires Sync(ledger, period, packet).Success?
    ensures PutLotRow(ledger, period, packet) == Sync(ledger, period, packet).value
  {
  }

  /** The update of a contribution row is the update of one lot in the list of lots. */
  lemma ContributionsUpdate(rows: seq<Entry>, i: nat, lot: Entry)
    requires i < |rows| && rows[i].Contribution? && lot.Contribution?
    ensures var j := |Contributions(rows[..i])|;
            && j < |Contributions(rows)|
            && Contributions(rows)[j] == rows[i]
            && Contributions(rows[i := lot]) == Contributions(rows)[j := lot]
  {
    hide Contributions;
    ContributionsSplit(rows, i);
    ContributionsSplit(rows[i := lot], i);
    assert rows[i := lot][..i] == rows[..i] && rows[i := lot][i + 1..] == rows[i + 1..];
  }

  lemma ContributionsOne(e: Entry)
    ensures Contributions([e]) == if e.Contribution? then [e] else []
  {
    assert [e][1..] == [];
  }

  lemma Around<T>(s: seq<T>, i: nat)
    requires i < |s|
    ensures s == s[..i] + [s[i]] + s[i + 1..]
  {
  }

  lemma ContributionsAround(before: seq<Entry>, e: Entry, after: seq<Entry>)
    ensures Contributions(before + [e] + after) ==
            Contributions(before) + (if e.Contribution? then [e] else []) + Contributions(after)
  {
    hide *;
    ContributionsAppend(before + [e], after);
    ContributionsAppend(before, [e]);
    ContributionsOne(e);
  }

  lemma ContributionsSplit(rows: seq<Entry>, i: nat)
    requires i < |rows|
    ensures Contributions(rows) ==
            Contributions(rows[..i]) + (if rows[i].Contribution? then [rows[i]] else []) + Contributions(rows[i + 1..])
  {
    hide *;
    Around(rows, i);
    ContributionsAround(rows[..i], rows[i], rows[i + 1..]);
  }

  /** Writing a plan and its lot keeps the two tables in step, whether the month is new or not. */
  lemma PutKeepsMirror(plans: seq<PlanRow>, ledger: Ledger, period: Period, plan: Plan)
    requires UniqueMonths(plans) && Mirrors(plans, Contributions(ledger.rows))
    ensures Mirrors(PutPlanRow(plans, period, plan), Contributions(PutLotRow(ledger, period, plan.fd).rows))
  {
    var rows, lots := ledger.rows, Contributions(ledger.rows);
    match IndexOfPeriod(rows, period) {
      case Some(i) =>
        var lot := Contribution(rows[i].id, plan.fd.amount, plan.fd.quantity, period);
        ContributionsUpdate(rows, i, lot);
        var j := |Contributions(rows[..i])|;
        assert plans[j].period == period && plans[j] in plans;
        assert IndexOfPlan(plans, period) == Some(j);
      case None =>
        assert forall k :: 0 <= k < |lots| ==> lots[k] in lots;
        forall row <- plans ensures row.period != period {
          var k :| 0 <= k < |plans| && plans[k] == row;
          assert lots[k] in rows;
        }
        var lot := Contribution(ledger.nextId, plan.fd.amount, plan.fd.quantity, period);
        ContributionsAppend(rows, [lot]);
        assert Contributions([lot]) == [lot] + Contributions([lot][1..]);
    }
  }

  // ---------------------------------------------------------------------------------------------
  // Preservation
  // ---------------------------------------------------------------------------------------------

  lemma MergedStored(plans: seq<PlanRow>, period: Period, dto: PlanDto, fd: Option<Packet>)
    requires PlansStored(plans) && (fd.Some? ==> ValidPacket(fd.value))
    ensures var saved := Merged(Current(plans, period), dto, fd);
            ValidPacket(saved.fd) && PlansStored(PutPlanRow(plans, period, saved))
  {
    hide Canonical, Named, Labelled;
    var saved := Merged(Current(plans, period), dto, fd);
    NormalizeCanonical(dto.goalPayments.GetOr(None));
    NormalizeNamed(dto.loanPayments.GetOr(None));
    NormalizeLabelled(dto.customExpenses.GetOr(Some([])));
    match IndexOfPlan(plans, period) {
      case Some(i) => assert plans[i] in plans;
      case None =>
    }
    var after := PutPlanRow(plans, period, saved);
    forall row <- after ensures row in plans || row == PlanRow(period, saved) {}
  }

  /** The request that names every field of a plan. */
  function FullRequest(plan: Plan): PlanDto {
    PlanDto(
      customExpenses := Some(Some(ExpensesAsJson(plan.customExpenses))), loanPayments := Some(Some(AsJson(plan.loanPayments))),
      goalPayments := Some(Some(AsJson(plan.goalPayments))), banks := Some(BanksAsJson(plan.banks)),
      fd := Some(Fields(Some(plan.fd.amount), Some(plan.fd.quantity))), remarks := Some(plan.remarks),
      basicCcSpent := Some(plan.basicCcSpent),
      stash := Some(plan.stash), savings := Some(plan.savings), stocks := Some(plan.stocks), sipMf := Some(plan.sipMf),
      otherExpenses := Some(plan.otherExpenses), bills := Some(plan.bills), cook := Some(plan.cook),
      rent := Some(plan.rent), otherSources := Some(plan.otherSources), salary := Some(plan.salary))
  }

  const EMPTY_REQUEST := PlanDto(None, None, None, None, None, None, None, None, None, None, None, None, None, None, None, None, None)

  /** A request that names every field stores exactly that plan, whatever was there. */
  lemma FullRequestStores(existing: Option<Plan>, plan: Plan)
    requires ValidPacket(plan.fd) && ListsCanonical(plan)
    ensures RequestedPacket(FullRequest(plan)).Success?
    ensures Merged(existing, FullRequest(plan), RequestedPacket(FullRequest(plan)).value) == plan
  {
    hide NormalizeGoalPayments, NormalizeLoanPayments, NormalizeCustomExpenses, NormalizeBanks, BanksAsJson;
    NormalizeStored(plan.goalPayments);
    ListsStored(plan.loanPayments, plan.customExpenses, plan.banks);
  }

  /** What the request names is stored: numbers, remarks and the packet as sent, lists normalised. */
  ghost predicate StoresNamed(dto: PlanDto, saved: Plan) {
    && (dto.salary.Some? ==> saved.salary == dto.salary.value)
    && (dto.otherSources.Some? ==> saved.otherSources == dto.otherSources.value)
    && (dto.rent.Some? ==> saved.rent == dto.rent.value)
    && (dto.cook.Some? ==> saved.cook == dto.cook.value)
    && (dto.bills.Some? ==> saved.bills == dto.bills.value)
    && (dto.otherExpenses.Some? ==> saved.otherExpenses == dto.otherExpenses.value)
    && (dto.basicCcSpent.Some? ==> saved.basicCcSpent == dto.basicCcSpent.value)
    && (dto.sipMf.Some? ==> saved.sipMf == dto.sipMf.value)
    && (dto.stocks.Some? ==> saved.stocks == dto.stocks.value)
    && (dto.savings.Some? ==> saved.savings == dto.savings.value)
    && (dto.stash.Some? ==> saved.stash == dto.stash.value)
    && (dto.fd.Some? ==> dto.fd.value == Fields(Some(saved.fd.amount), Some(saved.fd.quantity)))
    && (dto.goalPayments.Some? ==> saved.goalPayments == NormalizeGoalPayments(dto.goalPayments.value))
    && (dto.loanPayments.Some? ==> saved.loanPayments == NormalizeLoanPayments(dto.loanPayments.value))
    && (dto.customExpenses.Some? ==> saved.customExpenses == NormalizeCustomExpenses(dto.customExpenses.value))
    && (dto.banks.Some? ==> saved.banks == NormalizeBanks(dto.banks.value))
    && (dto.remarks.Some? ==> saved.remarks == dto.remarks.value)
  }

  /** A new month holds nothing that the request does not name. */
  ghost predicate BlankOmitted(dto: PlanDto, saved: Plan) {
    && (dto.salary.None? ==> saved.salary == 0)
    && (dto.otherSources.None? ==> saved.otherSources == 0)
    && (dto.rent.None? ==> saved.rent == 0)
    && (dto.cook.None? ==> saved.cook == 0)
    && (dto.bills.None? ==> saved.bills == 0)
    && (dto.otherExpenses.None? ==> saved.otherExpenses == 0)
    && (dto.basicCcSpent.None? ==> saved.basicCcSpent == 0)
    && (dto.sipMf.None? ==> saved.sipMf == 0)
    && (dto.stocks.None? ==> saved.stocks == 0)
    && (dto.savings.None? ==> saved.savings == 0)
    && (dto.stash.None? ==> saved.stash == 0)
    && (dto.fd.None? ==> saved.fd.amount == 0 && saved.fd.quantity == 0)
    && (dto.goalPayments.None? ==> saved.goalPayments == [])
    && (dto.loanPayments.None? ==> saved.loanPayments == [])
    && (dto.customExpenses.None? ==> saved.customExpenses == [])
    && (dto.banks.None? ==> saved.banks == map[])
    && (dto.remarks.None? ==> saved.remarks == "")
  }

  /** Every field that the request omits keeps its stored value. */
  predicate KeepsOmitted(plan: Plan, dto: PlanDto, saved: Plan) {
    && KeepsMost(plan, dto, saved)
    && (dto.customExpenses.None? ==> saved.customExpenses == plan.customExpenses)
    && (dto.banks.None? ==> saved.banks == plan.banks)
  }

  /** Every omitted field but the custom expenses and the banks. */
  predicate KeepsMost(plan: Plan, dto: PlanDto, saved: Plan) {
    && (dto.salary.None? ==> saved.salary == plan.salary)
    && (dto.otherSources.None? ==> saved.otherSources == plan.otherSources)
    && (dto.rent.None? ==> saved.rent == plan.rent)
    && (dto.cook.None? ==> saved.cook == plan.cook)
    && (dto.bills.None? ==> saved.bills == plan.bills)
    && (dto.otherExpenses.None? ==> saved.otherExpenses == plan.otherExpenses)
    && (dto.basicCcSpent.None? ==> saved.basicCcSpent == plan.basicCcSpent)
    && (dto.sipMf.None? ==> saved.sipMf == plan.sipMf)
    && (dto.stocks.None? ==> saved.stocks == plan.stocks)
    && (dto.savings.None? ==> saved.savings == plan.savings)
    && (dto.stash.None? ==> saved.stash == plan.stash)
    && (dto.fd.None? ==> saved.fd == plan.fd)
    && (dto.goalPayments.None? ==> saved.goalPayments == plan.goalPayments)
    && (dto.loanPayments.None? ==> saved.loanPayments == plan.loanPayments)
    && (dto.remarks.None? ==> saved.remarks == plan.remarks)
  }

  /** What one accepted request leaves of a month, field by field: the named fields as asked; of the
      omitted ones, what was stored before or, in a new month, nothing; and no omitted expenses or banks. */
  ghost predicate SavedAsAsked(existing: Option<Plan>, dto: PlanDto, saved: Plan) {
    && StoresNamed(dto, saved)
    && (existing.Some? ==> KeepsMost(existing.value, dto, saved))
    && (existing.None? ==> BlankOmitted(dto, saved))
    && (dto.customExpenses.None? ==> saved.customExpenses == [])
    && (dto.banks.None? ==> saved.banks == map[])
  }

  lemma MergedStoresNamed(existing: Option<Plan>, dto: PlanDto)
    requires RequestedPacket(dto).Success?
    ensures StoresNamed(dto, Merged(existing, dto, RequestedPacket(dto).value))
  {
    hide NormalizeGoalPayments, NormalizeLoanPayments, NormalizeCustomExpenses, NormalizeBanks;
  }

  lemma MergedKeeps(existing: Option<Plan>, dto: PlanDto)
    requires RequestedPacket(dto).Success?
    ensures var saved := Merged(existing, dto, RequestedPacket(dto).value);
            && (existing.Some? ==> KeepsMost(existing.value, dto, saved))
            && (existing.None? ==> BlankOmitted(dto, saved))
            && (dto.customExpenses.None? ==> saved.customExpenses == [])
            && (dto.banks.None? ==> saved.banks == map[])
  {
    hide NormalizeGoalPayments, NormalizeLoanPayments;
    assert NormalizeCustomExpenses(Some([])) == [];
  }

  lemma MergedAsAsked(existing: Option<Plan>, dto: PlanDto)
    requires RequestedPacket(dto).Success?
    ensures SavedAsAsked(existing, dto, Merged(existing, dto, RequestedPacket(dto).value))
  {
    hide Merged, StoresNamed, KeepsMost, BlankOmitted;
    MergedStoresNamed(existing, dto);
    MergedKeeps(existing, dto);
  }

  lemma PacketAcceptedIff(dto: PlanDto)
    ensures RequestedPacket(dto).Success? <==>
            dto.fd.None? || exists amount, quantity ::
                              dto.fd == Some(Fields(Some(amount), Some(quantity))) && ValidPacket(Packet(amount, quantity))
  {
    if RequestedPacket(dto).Success? && dto.fd.Some? {
      var p := RequestedPacket(dto).value.value;
      assert dto.fd == Some(Fields(Some(p.amount), Some(p.quantity)));
    }
  }

  /** Exactly when a plan request is accepted: its packet is a packet, with the month as saved no asset has
      sold more than it holds, and the month keeps its broken packets at their price. */
  lemma PlanAcceptedIff(t: Tables, period: Period, dto: PlanDto)
    requires Sound(t) && RequestedPacket(dto).Success?
    ensures var saved := Merged(Current(t.plans, period), dto, RequestedPacket(dto).value);
            var after := PutPlanRow(t.plans, period, saved);
            Decide(t, UpsertPlan(period, dto)).Success? <==>
            && Sold(t.sales.rows, MF) <= t.opening.mf + Purchased(after, MF)
            && Sold(t.sales.rows, STOCKS) <= t.opening.stocks + Purchased(after, STOCKS)
            && forall lot <- t.fd.rows :: lot.Contribution? && lot.period == period ==>
                 && Consumed(t.fd.rows, lot.id) <= saved.fd.quantity
                 && (Consumed(t.fd.rows, lot.id) > 0 ==> lot.amount == saved.fd.amount)
    ensures var saved := Merged(Current(t.plans, period), dto, RequestedPacket(dto).value);
            var after, answer := PutPlanRow(t.plans, period, saved), Decide(t, UpsertPlan(period, dto));
            if t.opening.mf + Purchased(after, MF) < Sold(t.sales.rows, MF) then answer == Failure(BelowSold(MF))
            else if t.opening.stocks + Purchased(after, STOCKS) < Sold(t.sales.rows, STOCKS) then answer == Failure(BelowSold(STOCKS))
            else answer.Failure? ==> answer.error.Fd?
  {
    hide Sync, WellFormed, Purchased, Sold, Consumed, PutPlanRow;
    var saved := Merged(Current(t.plans, period), dto, RequestedPacket(dto).value);
    PurchasedAfterPut(t.plans, period, saved, MF);
    PurchasedAfterPut(t.plans, period, saved, STOCKS);
    FdRuns.SyncAcceptedIff(t.fd, period, saved.fd);
  }

  lemma CurrentElsewhere(plans: seq<PlanRow>, period: Period, plan: Plan, other: Period)
    requires other != period
    ensures Current(PutPlanRow(plans, period, plan), other) == Current(plans, other)
  {
    if plans == [] {
      assert PutPlanRow(plans, period, plan) == [PlanRow(period, plan)] && [PlanRow(period, plan)][1..] == [];
    } else if plans[0].period != period {
      CurrentElsewhere(plans[1..], period, plan, other);
      assert PutPlanRow(plans, period, plan)[1..] == PutPlanRow(plans[1..], period, plan);
    } else {
      assert PutPlanRow(plans, period, plan)[1..] == plans[1..];
    }
  }

  /** What one accepted plan request leaves: the month as asked, the other months as they were, and sound
      books, in which no asset has sold more than it holds. */
  lemma PlanLeaves(t: Tables, period: Period, dto: PlanDto)
    requires Decide(t, UpsertPlan(period, dto)).Success?
    ensures var saved := Merged(Current(t.plans, period), dto, RequestedPacket(dto).value);
            var plans := PutPlanRow(t.plans, period, saved);
            && Current(plans, period) == Some(saved) && SavedAsAsked(Current(t.plans, period), dto, saved)
            && (forall other :: other != period ==> Current(plans, other) == Current(t.plans, other))
            && (Sound(t) ==>
                  && Sound(Apply(t, UpsertPlan(period, dto)))
                  && Sold(t.sales.rows, MF) <= t.opening.mf + Purchased(plans, MF)
                  && Sold(t.sales.rows, STOCKS) <= t.opening.stocks + Purchased(plans, STOCKS))
  {
    hide Merged, Sound, SavedAsAsked, Sold, Purchased, Apply;
    var saved := Merged(Current(t.plans, period), dto, RequestedPacket(dto).value);
    MergedAsAsked(Current(t.plans, period), dto);
    CurrentAfterPut(t.plans, period, saved);
    forall other | other != period ensures Current(PutPlanRow(t.plans, period, saved), other) == Current(t.plans, other) {
      CurrentElsewhere(t.plans, period, saved, other);
    }
    if Sound(t) {
      PlanKeeps(t, period, dto);
      PlanAcceptedIff(t, period, dto);
    }
  }

  /** An update leaves what it omits alone exactly when it names the custom expenses or none are stored,
      and names the banks or none are stored: an omitted list of those two empties the stored one. */
  lemma OmittedKeptIff(plan: Plan, dto: PlanDto)
    requires RequestedPacket(dto).Success?
    ensures KeepsOmitted(plan, dto, Merged(Some(plan), dto, RequestedPacket(dto).value)) <==>
            && (dto.customExpenses.Some? || plan.customExpenses == [])
            && (dto.banks.Some? || plan.banks == map[])
  {
    hide NormalizeGoalPayments, NormalizeLoanPayments;
    assert NormalizeCustomExpenses(Some([])) == [];
  }

  /** In particular a request that names nothing. */
  lemma EmptyRequestKeepsIff(plan: Plan)
    ensures Merged(Some(plan), EMPTY_REQUEST, None) == plan <==> plan.customExpenses == [] && plan.banks == map[]
    ensures Merged(Some(plan), EMPTY_REQUEST, None) == plan.(customExpenses := [], banks := map[])
  {
    assert NormalizeCustomExpenses(Some([])) == [];
  }

  lemma PlanKeeps(t: Tables, period: Period, dto: PlanDto)
    requires Sound(t)
    ensures Sound(Apply(t, UpsertPlan(period, dto)))
  {
    if DecidePlan(t, period, dto).Success? {
      var fd := RequestedPacket(dto).value;
      var saved := Merged(Current(t.plans, period), dto, fd);
      MergedStored(t.plans, period, dto, fd);
      var after := t.(plans := PutPlanRow(t.plans, period, saved), fd := PutLotRow(t.fd, period, saved.fd));
      ApplyTwo(t, PutPlan(period, saved), PutLot(period, saved.fd));
      FdRuns.SyncKeeps(t.fd, period, saved.fd);
      PutLotIsSync(t.fd, period, saved.fd);
      PutKeepsMirror(t.plans, t.fd, period, saved);
      PurchasedAfterPut(t.plans, period, saved, MF);
      PurchasedAfterPut(t.plans, period, saved, STOCKS);
    }
  }

  lemma ApplyTwo(t: Tables, a: Effect, b: Effect)
    ensures ApplyAll(t, [a, b]) == ApplyOne(ApplyOne(t, a), b)
  {
    assert [a, b][1..] == [b];
    assert ApplyAll(t, [a, b]) == ApplyAll(ApplyOne(t, a), [b]);
    ApplySingle(ApplyOne(t, a), b);
  }

  lemma ApplySingle(t: Tables, a: Effect)
    ensures ApplyAll(t, [a]) == ApplyOne(t, a)
  {
    assert [a][1..] == [];
  }

  lemma BreakFdEffect(t: Tables, quantity: int, denomination: Denomination)
    ensures Apply(t, BreakFd(quantity, denomination)) ==
            match BreakInserts(t.fd, quantity, denomination)
            case Success(inserts) => t.(fd := Insert(t.fd, inserts))
            case Failure(_) => t
  {
    hide BreakInserts, Insert;
    match BreakInserts(t.fd, quantity, denomination)
    case Success(inserts) => ApplySingle(t, InsertBreaks(inserts));
    case Failure(_) =>
  }

  lemma LotsIgnoreInserts(rows: seq<Entry>, inserts: seq<Entry>)
    requires forall e <- inserts :: e.Break?
    ensures Contributions(rows + inserts) == Contributions(rows)
  {
    ContributionsAppend(rows, inserts);
    NoContributions(inserts, Packets);
  }

  lemma BreakFdKeeps(t: Tables, quantity: int, denomination: Denomination)
    requires Sound(t)
    ensures Sound(Apply(t, BreakFd(quantity, denomination)))
  {
    hide Apply, WellFormed, BreakInserts, Contributions, Mirrors, Solvent, PlansStored, SalesStored, MovesStored;
    BreakFdEffect(t, quantity, denomination);
    if BreakInserts(t.fd, quantity, denomination).Success? {
      FdRuns.BreakKeeps(t.fd, quantity, denomination);
      BreakIsInsert(t.fd, quantity, denomination);
      LotsIgnoreInserts(t.fd.rows, BreakInserts(t.fd, quantity, denomination).value);
      SolventFrame(t, t.(fd := Insert(t.fd, BreakInserts(t.fd, quantity, denomination).value)));
    }
  }

  lemma BreakIsInsert(ledger: Ledger, quantity: int, denomination: Denomination)
    requires BreakInserts(ledger, quantity, denomination).Success?
    ensures BreakPackets(ledger, quantity, denomination).Success?
    ensures BreakPackets(ledger, quantity, denomination).value.0 == Insert(ledger, BreakInserts(ledger, quantity, denomination).value)
  {
  }

  lemma SolventFrame(a: Tables, b: Tables)
    requires a.plans == b.plans && a.opening == b.opening && a.sales == b.sales
    ensures Solvent(a) == Solvent(b)
  {
  }

  lemma LotsIgnoreUndo(rows: seq<Entry>, i: nat)
    requires i < |rows| && rows[i].Break?
    ensures Contributions(RemoveAt(rows, i)) == Contributions(rows)
  {
    hide Contributions;
    ContributionsSplit(rows, i);
    ContributionsAppend(rows[..i], rows[i + 1..]);
  }

  lemma UndoFdEffect(t: Tables, id: nat)
    ensures Apply(t, UndoFd(id)) ==
            match FdLedger.UndoBreak(t.fd, id)
            case Success(p) => t.(fd := p.0)
            case Failure(_) => t
  {
    ApplySingle(t, DeleteBreak(id));
  }

  lemma UndoFdKeeps(t: Tables, id: nat)
    requires Sound(t)
    ensures Sound(Apply(t, UndoFd(id)))
  {
    hide Apply, WellFormed;
    UndoFdEffect(t, id);
    FdRuns.UndoKeeps(t.fd, id);
    if IndexOfBreak(t.fd.rows, id).Some? {
      LotsIgnoreUndo(t.fd.rows, IndexOfBreak(t.fd.rows, id).value);
    }
  }

  lemma OpeningKeeps(t: Tables, next: Opening)
    requires Sound(t)
    ensures Sound(Apply(t, SetOpening(next)))
  {
    ApplySingle(t, PutOpening(next));
  }

  lemma SellEffect(t: Tables, asset: Asset, amount: int)
    ensures Apply(t, Sell(asset, amount)) ==
            if 0 < amount <= Balance(t, asset)
            then t.(sales := Sales(t.sales.rows + [Sale(t.sales.nextId, asset, amount)], t.sales.nextId + 1))
            else t
  {
    hide Balance;
    ApplySingle(t, InsertSale(asset, amount));
  }

  lemma SoldSnoc(sales: seq<Sale>, row: Sale, asset: Asset)
    ensures Sold(sales + [row], asset) == Sold(sales, asset) + (if row.asset == asset then row.amount else 0)
  {
    SoldAppend(sales, [row], asset);
    assert [row][1..] == [];
  }

  lemma SellKeeps(t: Tables, asset: Asset, amount: int)
    requires Sound(t)
    ensures Sound(Apply(t, Sell(asset, amount)))
  {
    hide Apply, WellFormed, Contributions, Mirrors, PlansStored, MovesStored, Sold, Purchased;
    SellEffect(t, asset, amount);
    var row := Sale(t.sales.nextId, asset, amount);
    SoldSnoc(t.sales.rows, row, MF);
    SoldSnoc(t.sales.rows, row, STOCKS);
  }

  lemma SalesRemove(sales: Sales, i: nat)
    requires SalesStored(sales) && i < |sales.rows|
    ensures SalesStored(sales.(rows := sales.rows[..i] + sales.rows[i + 1..]))
  {
    var after := sales.rows[..i] + sales.rows[i + 1..];
    forall a, b | 0 <= a < b < |after| ensures after[a].id != after[b].id {
      assert after[a] == sales.rows[if a < i then a else a + 1];
      assert after[b] == sales.rows[if b < i then b else b + 1];
    }
  }

  lemma UndoSaleEffect(t: Tables, id: nat)
    ensures Apply(t, UndoSale(id)) ==
            match IndexOfSale(t.sales.rows, id)
            case Some(i) => t.(sales := t.sales.(rows := t.sales.rows[..i] + t.sales.rows[i + 1..]))
            case None => t
  {
    ApplySingle(t, DeleteSale(id));
  }

  lemma UndoSaleKeeps(t: Tables, id: nat)
    requires Sound(t)
    ensures Sound(Apply(t, UndoSale(id)))
  {
    hide Apply, WellFormed, SalesStored;
    UndoSaleEffect(t, id);
    if IndexOfSale(t.sales.rows, id).Some? {
      var i := IndexOfSale(t.sales.rows, id).value;
      SoldRemove(t.sales.rows, i, MF);
      SoldRemove(t.sales.rows, i, STOCKS);
      SalesRemove(t.sales, i);
      SalePositive(t.sales, i);
    }
  }

  lemma SalePositive(sales: Sales, i: nat)
    requires SalesStored(sales) && i < |sales.rows|
    ensures 0 < sales.rows[i].amount
  {
    assert sales.rows[i] in sales.rows;
  }

  lemma BreakGoalEffect(t: Tables, goalId: string, rupees: real)
    ensures Apply(t, BreakGoal(goalId, rupees)) ==
            if DecideGoal(t, goalId, rupees).Success?
            then t.(moves := GoalMoves(t.moves.rows + [GoalMove(t.moves.nextId, goalId, RoundHalfUp(rupees) * RUPEE)], t.moves.nextId + 1))
            else t
  {
    hide Moved, Funded, RoundHalfUp;
    ApplySingle(t, InsertMove(goalId, RoundHalfUp(rupees) * RUPEE));
  }

  lemma UndoGoalEffect(t: Tables, id: nat)
    ensures Apply(t, UndoGoal(id)) ==
            match IndexOfMove(t.moves.rows, id)
            case Some(i) => t.(moves := t.moves.(rows := t.moves.rows[..i] + t.moves.rows[i + 1..]))
            case None => t
  {
    ApplySingle(t, DeleteMove(id));
  }

  lemma MovesRemove(moves: GoalMoves, i: nat)
    requires MovesStored(moves) && i < |moves.rows|
    ensures MovesStored(moves.(rows := moves.rows[..i] + moves.rows[i + 1..]))
  {
    var after := moves.rows[..i] + moves.rows[i + 1..];
    forall a, b | 0 <= a < b < |after| ensures after[a].id != after[b].id {
      assert after[a] == moves.rows[if a < i then a else a + 1];
      assert after[b] == moves.rows[if b < i then b else b + 1];
    }
  }

  lemma GoalKeeps(t: Tables, op: Op)
    requires Sound(t) && (op.BreakGoal? || op.UndoGoal?)
    ensures Sound(Apply(t, op))
  {
    hide Apply, WellFormed, Contributions, Mirrors, PlansStored, SalesStored, Solvent, Moved, Funded;
    match op
    case BreakGoal(goalId, rupees) =>
      BreakGoalEffect(t, goalId, rupees);
      SolventFrame(t, Apply(t, op));
    case UndoGoal(id) =>
      UndoGoalEffect(t, id);
      SolventFrame(t, Apply(t, op));
      if IndexOfMove(t.moves.rows, id).Some? { MovesRemove(t.moves, IndexOfMove(t.moves.rows, id).value); }
  }

  lemma StepKeeps(t: Tables, op: Op)
    requires Sound(t)
    ensures Sound(Apply(t, op))
  {
    hide *;
    match op
    case UpsertPlan(period, dto) => PlanKeeps(t, period, dto);
    case BreakFd(quantity, denomination) => BreakFdKeeps(t, quantity, denomination);
    case UndoFd(id) => UndoFdKeeps(t, id);
    case SetOpening(next) => OpeningKeeps(t, next);
    case Sell(asset, amount) => SellKeeps(t, asset, amount);
    case UndoSale(id) => UndoSaleKeeps(t, id);
    case BreakGoal(_, _) => GoalKeeps(t, op);
    case UndoGoal(_) => GoalKeeps(t, op);
  }

  lemma {:induction false} RunKeeps(t: Tables, ops: seq<Op>)
    requires Sound(t)
    ensures Sound(Run(t, ops))
    decreases |ops|
  {
    if ops != [] {
      StepKeeps(t, ops[0]);
      RunKeeps(Apply(t, ops[0]), ops[1..]);
    }
  }

  lemma EmptySound(goals: set<string>)
    ensures Sound(Empty(goals))
  {
  }

  /** Over every run from empty books, with plan amounts of any sign and partial updates, neither
      asset is ever sold below zero and the FD lots are the plans' packets. */
  lemma EveryRunSound(goals: set<string>, ops: seq<Op>)
    ensures Sound(Run(Empty(goals), ops))
  {
    EmptySound(goals);
    RunKeeps(Empty(goals), ops);
  }
}
