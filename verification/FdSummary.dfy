/**
 The ledger summary and its agreement with the allocator. The summary folds the rows into totals and
 one net figure per amount; the theorems show that in a well-formed ledger this is per-lot accounting.
 */
module FdSummary {
  import opened Wrappers
  import opened FdLedger
  import opened FdAllocation
  import opened FdRuns

  datatype FdLot = FdLot(amount: int, remainingPackets: int)
  datatype Summary = Summary(remainingPackets: int, fdBalance: int, brokenFdRupees: int, lots: seq<FdLot>)

  function Net(rows: seq<Entry>, w: Weight): int {
    Contributed(rows, w) - Broken(rows, w)
  }

  /** The amounts in the table, each once, in the order they first occur. */
  function Amounts(rows: seq<Entry>): (r: seq<int>)
    ensures forall a :: a in r <==> exists e <- rows :: e.amount == a
    ensures forall i, j :: 0 <= i < j < |r| ==> r[i] != r[j]
  {
    if rows == [] then []
    else
      var last := rows[|rows| - 1];
      var front := Amounts(rows[..|rows| - 1]);
      assert rows == rows[..|rows| - 1] + [last];
      if last.amount in front then front else front + [last.amount]
  }

  function PositiveLots(rows: seq<Entry>, amounts: seq<int>): (r: seq<FdLot>)
    ensures forall lot :: lot in r <==>
                            lot.amount in amounts && lot.remainingPackets == Net(rows, PacketsOf(lot.amount)) && lot.remainingPackets > 0
  {
    if amounts == [] then []
    else
      var n := Net(rows, PacketsOf(amounts[0]));
      (if n > 0 then [FdLot(amounts[0], n)] else []) + PositiveLots(rows, amounts[1..])
  }

  function InsertByAmount(lot: FdLot, lots: seq<FdLot>): (r: seq<FdLot>)
    ensures forall l :: l in r <==> l == lot || l in lots
  {
    if lots == [] || lot.amount < lots[0].amount then [lot] + lots
    else [lots[0]] + InsertByAmount(lot, lots[1..])
  }

  function SortByAmount(lots: seq<FdLot>): (r: seq<FdLot>)
    ensures forall l :: l in r <==> l in lots
  {
    if lots == [] then [] else InsertByAmount(lots[0], SortByAmount(lots[1..]))
  }

  function Summarize(rows: seq<Entry>): Summary {
    Summary(Net(rows, Packets), Net(rows, Rupees), Broken(rows, Rupees),
            SortByAmount(PositiveLots(rows, Amounts(rows))))
  }

  // ---------------------------------------------------------------------------------------------
  // The figures of the summary, per amount
  // ---------------------------------------------------------------------------------------------

  ghost predicate Ascending(lots: seq<FdLot>) {
    forall i, j :: 0 <= i < j < |lots| ==> lots[i].amount < lots[j].amount
  }

  lemma PositiveLotsDistinct(rows: seq<Entry>, amounts: seq<int>)
    requires forall i, j :: 0 <= i < j < |amounts| ==> amounts[i] != amounts[j]
    ensures forall i, j :: 0 <= i < j < |PositiveLots(rows, amounts)| ==>
                             PositiveLots(rows, amounts)[i].amount != PositiveLots(rows, amounts)[j].amount
  {
    if amounts != [] {
      PositiveLotsDistinct(rows, amounts[1..]);
      var rest := PositiveLots(rows, amounts[1..]);
      assert forall j :: 0 <= j < |rest| ==> rest[j] in rest;
    }
  }

  lemma InsertAscending(lot: FdLot, lots: seq<FdLot>)
    requires Ascending(lots) && forall l <- lots :: l.amount != lot.amount
    ensures Ascending(InsertByAmount(lot, lots))
  {
    if lots == [] || lot.amount < lots[0].amount {
    } else {
      InsertAscending(lot, lots[1..]);
      var rest := InsertByAmount(lot, lots[1..]);
      assert forall j :: 0 <= j < |rest| ==> rest[j] in rest;
    }
  }

  lemma SortAscending(lots: seq<FdLot>)
    requires forall i, j :: 0 <= i < j < |lots| ==> lots[i].amount != lots[j].amount
    ensures Ascending(SortByAmount(lots))
  {
    if lots != [] {
      SortAscending(lots[1..]);
      InsertAscending(lots[0], SortByAmount(lots[1..]));
    }
  }

  lemma NetUnused(rows: seq<Entry>, a: int)
    requires forall e <- rows :: e.amount != a
    ensures Net(rows, PacketsOf(a)) == 0
  {
    if rows != [] {
      assert Net(rows[1..], PacketsOf(a)) == 0 by { NetUnused(rows[1..], a); }
    }
  }

  /** For any table: the reported lots ascend strictly by amount, and an amount is reported exactly
      when its contributed packets outnumber its broken ones, with that difference. */
  lemma LotsMeaning(rows: seq<Entry>)
    ensures Ascending(Summarize(rows).lots)
    ensures forall a, p :: FdLot(a, p) in Summarize(rows).lots <==> p == Net(rows, PacketsOf(a)) && 0 < p
  {
    PositiveLotsDistinct(rows, Amounts(rows));
    SortAscending(PositiveLots(rows, Amounts(rows)));
    forall a | 0 < Net(rows, PacketsOf(a)) ensures a in Amounts(rows) {
      if forall e <- rows :: e.amount != a { NetUnused(rows, a); }
    }
  }

  // ---------------------------------------------------------------------------------------------
  // Per-lot accounting
  // ---------------------------------------------------------------------------------------------

  /** Weighted packets left in the lots, counted lot by lot. */
  function LotsLeft(lots: seq<Entry>, rows: seq<Entry>, w: Weight): int {
    if lots == [] then 0
    else WeightOf(w, lots[0].amount) * (lots[0].quantity - Consumed(rows, lots[0].id)) + LotsLeft(lots[1..], rows, w)
  }

  lemma Distribute(k: int, a: int, b: int)
    ensures k * (a - b) == k * a - k * b
  {
  }

  lemma LotsLeftUntouched(lots: seq<Entry>, w: Weight)
    requires forall e <- lots :: e.Contribution?
    ensures LotsLeft(lots, [], w) == Contributed(lots, w)
  {
    if lots != [] {
      LotsLeftUntouched(lots[1..], w);
    }
  }

  lemma LotsLeftCons(lots: seq<Entry>, e: Entry, rows: seq<Entry>, w: Weight)
    requires UniqueIds(lots)
    requires e.Break? ==> forall lot <- lots :: lot.id == e.source ==> lot.amount == e.amount
    ensures LotsLeft(lots, [e] + rows, w) ==
            LotsLeft(lots, rows, w)
            - (if e.Break? && (exists lot <- lots :: lot.id == e.source) then WeightOf(w, e.amount) * e.quantity else 0)
  {
    assert ([e] + rows)[1..] == rows;
    if lots != [] {
      LotsLeftCons(lots[1..], e, rows, w);
      var lot := lots[0];
      Distribute(WeightOf(w, lot.amount), lot.quantity - Consumed(rows, lot.id), if e.Break? && e.source == lot.id then e.quantity else 0);
      if e.Break? && e.source == lot.id {
        assert lot in lots;
        assert forall l <- lots[1..] :: l.id != lot.id;
      } else if e.Break? {
        if l :| l in lots && l.id == e.source { assert l in lots[1..]; }
      }
    }
  }

  lemma {:induction false} LotsLeftNet(lots: seq<Entry>, rows: seq<Entry>, w: Weight)
    requires UniqueIds(lots) && forall e <- lots :: e.Contribution?
    requires forall e <- rows :: e.Break? ==> HasLot(lots, e.source, e.amount)
    ensures LotsLeft(lots, rows, w) == Contributed(lots, w) - Broken(rows, w)
  {
    if rows == [] {
      LotsLeftUntouched(lots, w);
    } else {
      LotsLeftNet(lots, rows[1..], w);
      var e := rows[0];
      if e.Break? {
        var lot :| lot in lots && lot.Contribution? && lot.id == e.source && lot.amount == e.amount;
        forall l <- lots | l.id == e.source ensures l.amount == e.amount { SameLot(lots, l, lot); }
      }
      LotsLeftCons(lots, e, rows[1..], w);
      assert rows == [e] + rows[1..];
    }
  }

  lemma ContributedFilter(rows: seq<Entry>, w: Weight)
    ensures Contributed(Contributions(rows), w) == Contributed(rows, w)
  {
    if rows != [] && rows[0].Contribution? {
      var rest := Contributions(rows[1..]);
      assert ([rows[0]] + rest)[1..] == rest;
    }
  }

  /** In a well-formed ledger the net total is what the lots still hold, for every weight. */
  lemma NetIsPerLot(ledger: Ledger, w: Weight)
    requires WellFormed(ledger)
    ensures Net(ledger.rows, w) == LotsLeft(Contributions(ledger.rows), ledger.rows, w)
  {
    var lots := Contributions(ledger.rows);
    ContributionsUnique(ledger.rows);
    forall e <- ledger.rows | e.Break? ensures HasLot(lots, e.source, e.amount) {
      var lot :| lot in ledger.rows && lot.Contribution? && lot.id == e.source && lot.amount == e.amount;
      assert lot in lots;
    }
    LotsLeftNet(lots, ledger.rows, w);
    ContributedFilter(ledger.rows, w);
  }

  lemma LotsLeftInsert(lot: Entry, lots: seq<Entry>, rows: seq<Entry>, w: Weight)
    requires lot.Contribution? && forall e <- lots :: e.Contribution?
    ensures LotsLeft(InsertByPeriod(lot, lots), rows, w) == LotsLeft([lot], rows, w) + LotsLeft(lots, rows, w)
  {
    if lots == [] || lot.period.Before(lots[0].period) {
      assert ([lot] + lots)[1..] == lots;
    } else {
      LotsLeftInsert(lot, lots[1..], rows, w);
      var rest := InsertByPeriod(lot, lots[1..]);
      assert ([lots[0]] + rest)[1..] == rest;
    }
  }

  lemma LotsLeftSort(lots: seq<Entry>, rows: seq<Entry>, w: Weight)
    requires forall e <- lots :: e.Contribution?
    ensures LotsLeft(SortByPeriod(lots), rows, w) == LotsLeft(lots, rows, w)
  {
    hide WeightOf, Consumed, InsertByPeriod;
    if lots != [] {
      LotsLeftSort(lots[1..], rows, w);
      LotsLeftInsert(lots[0], SortByPeriod(lots[1..]), rows, w);
      LotsLeftOne(lots[0], rows, w);
    }
  }

  lemma LotsLeftOne(lot: Entry, rows: seq<Entry>, w: Weight)
    ensures LotsLeft([lot], rows, w) == WeightOf(w, lot.amount) * (lot.quantity - Consumed(rows, lot.id))
  {
    assert [lot][1..] == [];
  }

  function WeightFor(denomination: Denomination): Weight {
    match denomination
    case Any => Packets
    case Of(a) => PacketsOf(a)
  }

  lemma AvailableFiltered(lots: seq<Entry>, denomination: Denomination, rows: seq<Entry>)
    requires forall lot <- lots :: 0 <= lot.quantity - Consumed(rows, lot.id)
    ensures Available(OfDenomination(lots, denomination), rows) == LotsLeft(lots, rows, WeightFor(denomination))
  {
    if lots != [] {
      AvailableFiltered(lots[1..], denomination, rows);
      var rest := OfDenomination(lots[1..], denomination);
      assert lots[0] in lots;
      if Matches(denomination, lots[0].amount) { assert ([lots[0]] + rest)[1..] == rest; }
    }
  }

  /** What the allocator has to give is the summary's figure for that choice of denomination. */
  lemma AvailableIsNet(ledger: Ledger, denomination: Denomination)
    requires WellFormed(ledger)
    ensures Available(Candidates(ledger.rows, denomination), ledger.rows) == Net(ledger.rows, WeightFor(denomination))
  {
    var lots := Contributions(ledger.rows);
    AvailableFiltered(SortByPeriod(lots), denomination, ledger.rows);
    LotsLeftSort(lots, ledger.rows, WeightFor(denomination));
    NetIsPerLot(ledger, WeightFor(denomination));
  }

  // ---------------------------------------------------------------------------------------------
  // Agreement with the allocator
  // ---------------------------------------------------------------------------------------------

  /** The packets the summary shows for a choice of denomination; an unlisted amount shows none. */
  ghost function Shown(summary: Summary, denomination: Denomination): int {
    match denomination
    case Any => summary.remainingPackets
    case Of(a) => if exists p :: FdLot(a, p) in summary.lots
                  then var p :| FdLot(a, p) in summary.lots; p
                  else 0
  }

  lemma ShownIsNet(ledger: Ledger, denomination: Denomination)
    requires WellFormed(ledger)
    ensures Shown(Summarize(ledger.rows), denomination) == Net(ledger.rows, WeightFor(denomination))
  {
    hide WellFormed;
    AvailableIsNet(ledger, denomination);
    LotsMeaning(ledger.rows);
    if denomination.Of? {
      var n := Net(ledger.rows, PacketsOf(denomination.amount));
      assert n > 0 ==> FdLot(denomination.amount, n) in Summarize(ledger.rows).lots;
    }
  }

  /** A break is accepted exactly when it fits the figure the summary reports. */
  lemma AcceptedIffShown(ledger: Ledger, quantity: int, denomination: Denomination)
    requires WellFormed(ledger)
    ensures BreakPackets(ledger, quantity, denomination).Success? <==>
            && 0 < quantity
            && (denomination.Of? ==> 0 < denomination.amount)
            && quantity <= Shown(Summarize(ledger.rows), denomination)
  {
    AvailableIsNet(ledger, denomination);
    ShownIsNet(ledger, denomination);
  }

  /** The balances a break returns are those of the summary of the new table. */
  lemma ReceiptIsSummary(ledger: Ledger, quantity: int, denomination: Denomination)
    requires WellFormed(ledger)
    requires BreakPackets(ledger, quantity, denomination).Success?
    ensures var (after, receipt) := BreakPackets(ledger, quantity, denomination).value;
            && receipt.remainingPackets == Summarize(after.rows).remainingPackets
            && receipt.fdBalance == Summarize(after.rows).fdBalance
            && receipt.rupees == Summarize(after.rows).brokenFdRupees - Summarize(ledger.rows).brokenFdRupees
            && Summarize(after.rows).fdBalance + Summarize(after.rows).brokenFdRupees
               == Summarize(ledger.rows).fdBalance + Summarize(ledger.rows).brokenFdRupees
  {
    var rows, lots := ledger.rows, Candidates(ledger.rows, denomination);
    var inserts := BreakRows(lots, rows, quantity, ledger.nextId);
    TakesSum(lots, rows, quantity, ledger.nextId);
    TotalsAppend(rows, inserts, Packets);
    TotalsAppend(rows, inserts, Rupees);
    NoContributions(inserts, Packets);
    NoContributions(inserts, Rupees);
  }

  /** An undo gives back exactly the money and packets of its row. */
  lemma UndoConserves(ledger: Ledger, id: nat)
    requires UndoBreak(ledger, id).Success?
    ensures var (after, receipt) := UndoBreak(ledger, id).value;
            && Summarize(after.rows).fdBalance == Summarize(ledger.rows).fdBalance + receipt.revertedRupees
            && Summarize(after.rows).brokenFdRupees == Summarize(ledger.rows).brokenFdRupees - receipt.revertedRupees
            && Summarize(after.rows).remainingPackets == Summarize(ledger.rows).remainingPackets + receipt.restoredPackets
  {
    var rows := ledger.rows;
    var i := IndexOfBreak(rows, id).value;
    assert rows == rows[..i] + [rows[i]] + rows[i + 1..];
    RemoveTotals(rows, i, Packets);
    RemoveTotals(rows, i, Rupees);
  }

  lemma RemoveTotals(rows: seq<Entry>, i: nat, w: Weight)
    requires i < |rows| && rows[i].Break?
    ensures Contributed(RemoveAt(rows, i), w) == Contributed(rows, w)
    ensures Broken(RemoveAt(rows, i), w) == Broken(rows, w) - WeightOf(w, rows[i].amount) * rows[i].quantity
  {
    assert rows == rows[..i] + [rows[i]] + rows[i + 1..];
    TotalsAppend(rows[..i] + [rows[i]], rows[i + 1..], w);
    TotalsAppend(rows[..i], [rows[i]], w);
    TotalsAppend(rows[..i], rows[i + 1..], w);
    assert Broken([rows[i]], w) == WeightOf(w, rows[i].amount) * rows[i].quantity + Broken([rows[i]][1..], w);
    assert Contributed([rows[i]], w) == Contributed([rows[i]][1..], w);
  }

  // ---------------------------------------------------------------------------------------------
  // The positive filter drops nothing
  // ---------------------------------------------------------------------------------------------

  function LotPackets(lots: seq<FdLot>): int {
    if lots == [] then 0 else lots[0].remainingPackets + LotPackets(lots[1..])
  }

  function LotRupees(lots: seq<FdLot>): int {
    if lots == [] then 0 else lots[0].amount * lots[0].remainingPackets + LotRupees(lots[1..])
  }

  lemma LotTotalsInsert(lot: FdLot, lots: seq<FdLot>)
    ensures LotPackets(InsertByAmount(lot, lots)) == lot.remainingPackets + LotPackets(lots)
    ensures LotRupees(InsertByAmount(lot, lots)) == lot.amount * lot.remainingPackets + LotRupees(lots)
  {
    if lots == [] || lot.amount < lots[0].amount {
      assert ([lot] + lots)[1..] == lots;
    } else {
      LotTotalsInsert(lot, lots[1..]);
      var rest := InsertByAmount(lot, lots[1..]);
      assert ([lots[0]] + rest)[1..] == rest;
    }
  }

  lemma LotTotalsSort(lots: seq<FdLot>)
    ensures LotPackets(SortByAmount(lots)) == LotPackets(lots)
    ensures LotRupees(SortByAmount(lots)) == LotRupees(lots)
  {
    if lots != [] {
      LotTotalsSort(lots[1..]);
      LotTotalsInsert(lots[0], SortByAmount(lots[1..]));
    }
  }

  /** Sum over the listed amounts of weight times net packets. */
  function NetOver(rows: seq<Entry>, amounts: seq<int>, w: Weight): int {
    if amounts == [] then 0
    else WeightOf(w, amounts[0]) * Net(rows, PacketsOf(amounts[0])) + NetOver(rows, amounts[1..], w)
  }

  function Signed(e: Entry): int {
    if e.Contribution? then e.quantity else -e.quantity
  }

  lemma NetCons(e: Entry, rows: seq<Entry>, w: Weight)
    ensures Net([e] + rows, w) == Net(rows, w) + WeightOf(w, e.amount) * Signed(e)
  {
    assert ([e] + rows)[1..] == rows;
    Distribute(WeightOf(w, e.amount), 0, e.quantity);
  }

  lemma {:induction false} NetOverCons(e: Entry, rows: seq<Entry>, amounts: seq<int>, w: Weight)
    requires forall i, j :: 0 <= i < j < |amounts| ==> amounts[i] != amounts[j]
    ensures NetOver([e] + rows, amounts, w) == NetOver(rows, amounts, w)
            + (if e.amount in amounts then WeightOf(w, e.amount) * Signed(e) else 0)
  {
    if amounts != [] {
      NetOverCons(e, rows, amounts[1..], w);
      var a := amounts[0];
      NetCons(e, rows, PacketsOf(a));
      Distribute(WeightOf(w, a), Net(rows, PacketsOf(a)), -Signed(e));
      assert e.amount in amounts <==> e.amount == a || e.amount in amounts[1..];
    }
  }

  lemma {:induction false} NetOverAll(rows: seq<Entry>, amounts: seq<int>, w: Weight)
    requires forall i, j :: 0 <= i < j < |amounts| ==> amounts[i] != amounts[j]
    requires forall e <- rows :: e.amount in amounts
    ensures NetOver(rows, amounts, w) == Net(rows, w)
  {
    if rows == [] {
      NetOverEmpty(amounts, w);
    } else {
      NetOverAll(rows[1..], amounts, w);
      NetOverCons(rows[0], rows[1..], amounts, w);
      NetCons(rows[0], rows[1..], w);
      assert rows == [rows[0]] + rows[1..];
    }
  }

  lemma NetOverEmpty(amounts: seq<int>, w: Weight)
    ensures NetOver([], amounts, w) == 0
  {
  }

  lemma PositiveLotTotals(rows: seq<Entry>, amounts: seq<int>)
    requires forall a <- amounts :: 0 <= Net(rows, PacketsOf(a))
    ensures LotPackets(PositiveLots(rows, amounts)) == NetOver(rows, amounts, Packets)
    ensures LotRupees(PositiveLots(rows, amounts)) == NetOver(rows, amounts, Rupees)
  {
    if amounts != [] {
      PositiveLotTotals(rows, amounts[1..]);
      var n, rest := Net(rows, PacketsOf(amounts[0])), PositiveLots(rows, amounts[1..]);
      assert NetOver(rows, amounts, Packets) == 1 * n + NetOver(rows, amounts[1..], Packets);
      assert NetOver(rows, amounts, Rupees) == amounts[0] * n + NetOver(rows, amounts[1..], Rupees);
      if n > 0 {
        var all := [FdLot(amounts[0], n)] + rest;
        assert PositiveLots(rows, amounts) == all && all[1..] == rest;
      } else {
        assert n == 0 && amounts[0] * n == 0;
        assert PositiveLots(rows, amounts) == [] + rest == rest;
      }
    }
  }

  /** The reported lots account for every remaining packet and every remaining rupee. */
  lemma FilterDropsNothing(ledger: Ledger)
    requires WellFormed(ledger)
    ensures LotPackets(Summarize(ledger.rows).lots) == Summarize(ledger.rows).remainingPackets
    ensures LotRupees(Summarize(ledger.rows).lots) == Summarize(ledger.rows).fdBalance
  {
    var rows, amounts := ledger.rows, Amounts(ledger.rows);
    forall a ensures 0 <= Net(rows, PacketsOf(a)) {
      AvailableIsNet(ledger, Of(a));
    }
    PositiveLotTotals(rows, amounts);
    NetOverAll(rows, amounts, Packets);
    NetOverAll(rows, amounts, Rupees);
    LotTotalsSort(PositiveLots(rows, amounts));
  }

  // ---------------------------------------------------------------------------------------------
  // Splitting a break, in money
  // ---------------------------------------------------------------------------------------------

  lemma {:induction false} LotsLeftCongruent(lots: seq<Entry>, a: seq<Entry>, b: seq<Entry>, w: Weight)
    requires forall id :: Consumed(a, id) == Consumed(b, id)
    ensures LotsLeft(lots, a, w) == LotsLeft(lots, b, w)
  {
    if lots != [] {
      LotsLeftCongruent(lots[1..], a, b, w);
    }
  }

  /** Two well-formed ledgers with the same lots and the same consumption have equal nets. */
  lemma NetCongruent(a: Ledger, b: Ledger, w: Weight)
    requires WellFormed(a) && WellFormed(b)
    requires Contributions(a.rows) == Contributions(b.rows)
    requires forall id :: Consumed(a.rows, id) == Consumed(b.rows, id)
    ensures Net(a.rows, w) == Net(b.rows, w)
  {
    NetIsPerLot(a, w);
    NetIsPerLot(b, w);
    LotsLeftCongruent(Contributions(a.rows), a.rows, b.rows, w);
  }

  lemma AscendingSame(a: seq<FdLot>, b: seq<FdLot>)
    requires Ascending(a) && Ascending(b)
    requires forall l :: l in a <==> l in b
    ensures a == b
  {
    assert (a == [] || a[0] in a) && (b == [] || b[0] in b);
    if a != [] {
      assert a[0] in b && b != [];
      assert b[0] in a;
      var i :| 0 <= i < |b| && b[i] == a[0];
      var j :| 0 <= j < |a| && a[j] == b[0];
      assert i == 0 && j == 0;
      forall l ensures l in a[1..] <==> l in b[1..] {
        if l in a[1..] { assert l in a && l.amount > a[0].amount; assert l in b; }
        if l in b[1..] { assert l in b && l.amount > b[0].amount; assert l in a; }
      }
      AscendingSame(a[1..], b[1..]);
      assert a == [a[0]] + a[1..] && b == [b[0]] + b[1..];
    }
  }

  lemma SummaryCongruent(a: Ledger, b: Ledger)
    requires WellFormed(a) && WellFormed(b)
    requires Contributions(a.rows) == Contributions(b.rows)
    requires forall id :: Consumed(a.rows, id) == Consumed(b.rows, id)
    ensures Summarize(a.rows) == Summarize(b.rows)
  {
    forall w ensures Net(a.rows, w) == Net(b.rows, w) { NetCongruent(a, b, w); }
    ContributedFilter(a.rows, Rupees);
    ContributedFilter(b.rows, Rupees);
    LotsMeaning(a.rows);
    LotsMeaning(b.rows);
    forall l ensures l in Summarize(a.rows).lots <==> l in Summarize(b.rows).lots {
      assert l == FdLot(l.amount, l.remainingPackets);
    }
    AscendingSame(Summarize(a.rows).lots, Summarize(b.rows).lots);
  }

  lemma BreakUnfold(ledger: Ledger, quantity: int, denomination: Denomination)
    ensures BreakPackets(ledger, quantity, denomination).Success? == BreakInserts(ledger, quantity, denomination).Success?
    ensures BreakPackets(ledger, quantity, denomination).Success? ==>
              BreakPackets(ledger, quantity, denomination).value.0
              == Insert(ledger, BreakInserts(ledger, quantity, denomination).value)
  {
  }

  lemma SplitSummary(ledger: Ledger, q1: int, q2: int, denomination: Denomination)
    requires WellFormed(ledger) && 0 < q1 && 0 < q2
    requires BreakInserts(ledger, q1 + q2, denomination).Success?
    ensures BreakInserts(ledger, q1, denomination).Success?
    ensures var mid := Insert(ledger, BreakInserts(ledger, q1, denomination).value);
            var one := Insert(ledger, BreakInserts(ledger, q1 + q2, denomination).value);
            && BreakInserts(mid, q2, denomination).Success?
            && var two := Insert(mid, BreakInserts(mid, q2, denomination).value);
               && Summarize(two.rows) == Summarize(one.rows)
               && forall id :: Consumed(two.rows, id) == Consumed(one.rows, id)
  {
    hide *;
    SplitConsumption(ledger, q1, q2, denomination, 0);
    BreakUnfold(ledger, q1, denomination);
    BreakUnfold(ledger, q1 + q2, denomination);
    var mid := Insert(ledger, BreakInserts(ledger, q1, denomination).value);
    var two := Insert(mid, BreakInserts(mid, q2, denomination).value);
    var one := Insert(ledger, BreakInserts(ledger, q1 + q2, denomination).value);
    forall id ensures Consumed(two.rows, id) == Consumed(one.rows, id) {
      SplitConsumption(ledger, q1, q2, denomination, id);
    }
    BreakUnfold(mid, q2, denomination);
    BreakKeeps(ledger, q1, denomination);
    BreakKeeps(mid, q2, denomination);
    BreakKeeps(ledger, q1 + q2, denomination);
    SameLots(ledger, q1, denomination);
    SameLots(mid, q2, denomination);
    SameLots(ledger, q1 + q2, denomination);
    SummaryCongruent(two, one);
  }

  /** Breaking q1 then q2 packets yields the rupees, the summary and the per-lot consumption of one
      break of q1 + q2 packets of the same choice of denomination. */
  lemma SplitBreak(ledger: Ledger, q1: int, q2: int, denomination: Denomination)
    requires WellFormed(ledger) && 0 < q1 && 0 < q2
    requires BreakPackets(ledger, q1 + q2, denomination).Success?
    ensures BreakPackets(ledger, q1, denomination).Success?
    ensures BreakPackets(BreakPackets(ledger, q1, denomination).value.0, q2, denomination).Success?
    ensures var (mid, first) := BreakPackets(ledger, q1, denomination).value;
            var (two, second) := BreakPackets(mid, q2, denomination).value;
            var (one, whole) := BreakPackets(ledger, q1 + q2, denomination).value;
            && first.rupees + second.rupees == whole.rupees
            && Summarize(two.rows) == Summarize(one.rows)
            && forall id :: Consumed(two.rows, id) == Consumed(one.rows, id)
  {
    hide *;
    BreakUnfold(ledger, q1 + q2, denomination);
    SplitSummary(ledger, q1, q2, denomination);
    BreakUnfold(ledger, q1, denomination);
    var mid := BreakPackets(ledger, q1, denomination).value.0;
    BreakUnfold(mid, q2, denomination);
    BreakKeeps(ledger, q1, denomination);
    ReceiptIsSummary(ledger, q1, denomination);
    ReceiptIsSummary(mid, q2, denomination);
    ReceiptIsSummary(ledger, q1 + q2, denomination);
  }

  /** A break leaves so many packets fewer for its choice of denomination. */
  lemma AvailableAfterRows(ledger: Ledger, q: int, denomination: Denomination)
    requires WellFormed(ledger) && 0 <= q
    ensures var lots := Candidates(ledger.rows, denomination);
            var after := ledger.rows + BreakRows(lots, ledger.rows, q, ledger.nextId);
            Available(Candidates(after, denomination), after) == Max(0, Available(lots, ledger.rows) - q)
  {
    hide *;
    var lots := Candidates(ledger.rows, denomination);
    CandidatesCovered(ledger, denomination);
    CandidatesIgnoreBreaks(ledger.rows, BreakRows(lots, ledger.rows, q, ledger.nextId), denomination);
    SplitAvailable(lots, ledger.rows, q, ledger.nextId);
  }

  lemma MergedAccepted(ledger: Ledger, q1: int, q2: int, denomination: Denomination)
    requires WellFormed(ledger) && BreakInserts(ledger, q1, denomination).Success?
    requires BreakInserts(Insert(ledger, BreakInserts(ledger, q1, denomination).value), q2, denomination).Success?
    ensures BreakInserts(ledger, q1 + q2, denomination).Success?
  {
    hide Candidates, Available, BreakRows, BreakInserts, Insert, WellFormed;
    var inserts := BreakInserts(ledger, q1, denomination).value;
    AcceptedFits(ledger, q1, denomination);
    AcceptedFits(Insert(ledger, inserts), q2, denomination);
    AvailableAfterRows(ledger, q1, denomination);
    InsertedRows(ledger, inserts);
    InsertsAre(ledger, q1 + q2, denomination);
  }

  /** Splitting decides nothing either: q1 and then q2 packets are accepted exactly when q1 + q2 are. */
  lemma SplitAcceptedIff(ledger: Ledger, q1: int, q2: int, denomination: Denomination)
    requires WellFormed(ledger) && 0 < q1 && 0 < q2
    ensures BreakPackets(ledger, q1 + q2, denomination).Success? <==>
            && BreakPackets(ledger, q1, denomination).Success?
            && BreakPackets(BreakPackets(ledger, q1, denomination).value.0, q2, denomination).Success?
  {
    hide *;
    BreakUnfold(ledger, q1 + q2, denomination);
    BreakUnfold(ledger, q1, denomination);
    if BreakPackets(ledger, q1 + q2, denomination).Success? {
      SplitBreak(ledger, q1, q2, denomination);
    } else if BreakPackets(ledger, q1, denomination).Success? {
      var mid := BreakPackets(ledger, q1, denomination).value.0;
      BreakUnfold(mid, q2, denomination);
      if BreakPackets(mid, q2, denomination).Success? { MergedAccepted(ledger, q1, q2, denomination); }
    }
  }

  lemma SameLots(ledger: Ledger, quantity: int, denomination: Denomination)
    requires BreakPackets(ledger, quantity, denomination).Success?
    ensures Contributions(BreakPackets(ledger, quantity, denomination).value.0.rows) == Contributions(ledger.rows)
  {
    var inserts := BreakInserts(ledger, quantity, denomination).value;
    ContributionsAppend(ledger.rows, inserts);
    NoContributions(inserts, Packets);
  }
}
