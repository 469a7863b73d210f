/** The service over the stored table: its loops compute the transactions of FdLedger and FdSummary. */
module FdLedgerServices {
  import opened Wrappers
  import opened FdLedger
  import FdAllocation
  import opened FdSummary

  function Breaks(rows: seq<Entry>): (r: seq<Entry>)
    ensures forall e :: e in r <==> e in rows && e.Break?
  {
    if rows == [] then []
    else if rows[0].Break? then [rows[0]] + Breaks(rows[1..])
    else Breaks(rows[1..])
  }

  /** ORDER BY year, month, createdAt, id: break rows have no period and come last. */
  function FindManyOrdered(rows: seq<Entry>): seq<Entry> {
    SortByPeriod(Contributions(rows)) + Breaks(rows)
  }

  lemma ConsumedOfBreaks(rows: seq<Entry>, id: nat)
    ensures Consumed(Breaks(rows), id) == Consumed(rows, id)
  {
    if rows != [] && rows[0].Break? {
      assert ([rows[0]] + Breaks(rows[1..]))[1..] == Breaks(rows[1..]);
    }
  }

  lemma TotalsOfBreaks(rows: seq<Entry>, w: Weight)
    ensures Broken(Breaks(rows), w) == Broken(rows, w) && Contributed(Breaks(rows), w) == 0
  {
    if rows != [] && rows[0].Break? {
      assert ([rows[0]] + Breaks(rows[1..]))[1..] == Breaks(rows[1..]);
    }
  }

  lemma NoBreaks(lots: seq<Entry>, w: Weight, id: nat)
    requires forall e <- lots :: e.Contribution?
    ensures Broken(lots, w) == 0 && Consumed(lots, id) == 0
  {
    if lots != [] {
      assert lots[0] in lots;
      NoBreaks(lots[1..], w, id);
    }
  }

  lemma ContributedInsert(lot: Entry, lots: seq<Entry>, w: Weight)
    requires lot.Contribution? && forall e <- lots :: e.Contribution?
    ensures Contributed(InsertByPeriod(lot, lots), w) == WeightOf(w, lot.amount) * lot.quantity + Contributed(lots, w)
  {
    if lots == [] || lot.period.Before(lots[0].period) {
      assert ([lot] + lots)[1..] == lots;
    } else {
      ContributedInsert(lot, lots[1..], w);
      var rest := InsertByPeriod(lot, lots[1..]);
      assert ([lots[0]] + rest)[1..] == rest;
    }
  }

  lemma ContributedSort(lots: seq<Entry>, w: Weight)
    requires forall e <- lots :: e.Contribution?
    ensures Contributed(SortByPeriod(lots), w) == Contributed(lots, w)
  {
    if lots != [] {
      ContributedSort(lots[1..], w);
      ContributedInsert(lots[0], SortByPeriod(lots[1..]), w);
    }
  }

  /** Ordering the rows changes no figure the break uses. */
  lemma OrderingKeepsFigures(rows: seq<Entry>, w: Weight, id: nat)
    ensures Consumed(FindManyOrdered(rows), id) == Consumed(rows, id)
    ensures Net(FindManyOrdered(rows), w) == Net(rows, w)
  {
    var lots := SortByPeriod(Contributions(rows));
    ConsumedAppend(lots, Breaks(rows), id);
    TotalsAppend(lots, Breaks(rows), w);
    NoBreaks(lots, w, id);
    ConsumedOfBreaks(rows, id);
    TotalsOfBreaks(rows, w);
    ContributedSort(Contributions(rows), w);
    ContributedFilter(rows, w);
  }

  lemma OrderedCandidates(rows: seq<Entry>, denomination: Denomination)
    ensures OfDenomination(Contributions(FindManyOrdered(rows)), denomination) == Candidates(rows, denomination)
  {
    var lots := SortByPeriod(Contributions(rows));
    ContributionsAppend(lots, Breaks(rows));
    NoContributions(Breaks(rows), Packets);
    AllContributions(lots);
    assert lots + [] == lots;
  }

  lemma AllContributions(lots: seq<Entry>)
    requires forall e <- lots :: e.Contribution?
    ensures Contributions(lots) == lots
  {
    if lots != [] {
      AllContributions(lots[1..]);
    }
  }

  function Lookup<K>(m: map<K, int>, id: K): int {
    if id in m then m[id] else 0
  }

  /** The Map of the fold: one key per amount, holding its net packets. */
  ghost predicate NetByAmount(m: map<int, int>, order: seq<int>, rows: seq<Entry>) {
    && (forall a :: a in m <==> a in order)
    && (forall a :: a in m ==> m[a] == Net(rows, PacketsOf(a)))
  }

  lemma LastEntry(before: seq<Entry>, entry: Entry)
    ensures Contributed(before + [entry], Packets) ==
            Contributed(before, Packets) + (if entry.Contribution? then entry.quantity else 0)
    ensures Contributed(before + [entry], Rupees) ==
            Contributed(before, Rupees) + (if entry.Contribution? then entry.amount * entry.quantity else 0)
    ensures Broken(before + [entry], Packets) ==
            Broken(before, Packets) + (if entry.Break? then entry.quantity else 0)
    ensures Broken(before + [entry], Rupees) ==
            Broken(before, Rupees) + (if entry.Break? then entry.amount * entry.quantity else 0)
    ensures Amounts(before + [entry]) == if entry.amount in Amounts(before) then Amounts(before) else Amounts(before) + [entry.amount]
  {
    TotalsAppend(before, [entry], Packets);
    TotalsAppend(before, [entry], Rupees);
    assert [entry][1..] == [];
    assert (before + [entry])[..|before|] == before;
  }

  lemma ConsumedSnoc(before: seq<Entry>, entry: Entry)
    ensures forall id :: Consumed(before + [entry], id) ==
                         Consumed(before, id) + (if entry.Break? && entry.source == id then entry.quantity else 0)
  {
    forall id: nat
      ensures Consumed(before + [entry], id) ==
              Consumed(before, id) + (if entry.Break? && entry.source == id then entry.quantity else 0)
    {
      ConsumedAppend(before, [entry], id);
      assert [entry][1..] == [];
    }
  }

  lemma NothingConsumed()
    ensures forall id :: Consumed([], id) == 0
  {
  }

  lemma NothingTotalled()
    ensures Amounts([]) == [] && forall w :: Contributed([], w) == 0 && Broken([], w) == 0
  {
  }

  lemma BreakRowsStep(lots: seq<Entry>, i: nat, rows: seq<Entry>, needed: int, nextId: nat)
    requires i < |lots| && 0 < needed
    ensures var take := Min(Remaining(rows, lots[i]), needed);
            BreakRows(lots[i..], rows, needed, nextId) ==
            if take == 0 then BreakRows(lots[i + 1..], rows, needed, nextId)
            else [Break(nextId, lots[i].amount, take, lots[i].id)] + BreakRows(lots[i + 1..], rows, needed - take, nextId + 1)
  {
    assert lots[i..][0] == lots[i] && lots[i..][1..] == lots[i + 1..];
  }

  lemma BreakRowsDone(lots: seq<Entry>, rows: seq<Entry>, needed: int, nextId: nat)
    requires lots == [] || needed == 0
    ensures BreakRows(lots, rows, needed, nextId) == []
  {
  }

  lemma LastBroken(before: seq<Entry>, row: Entry)
    requires row.Break?
    ensures Broken(before + [row], Rupees) == Broken(before, Rupees) + row.amount * row.quantity
  {
    LastEntry(before, row);
  }

  lemma NetSnoc(before: seq<Entry>, entry: Entry, a: int)
    ensures Net(before + [entry], PacketsOf(a)) == Net(before, PacketsOf(a)) + (if entry.amount == a then Signed(entry) else 0)
  {
    TotalsAppend(before, [entry], PacketsOf(a));
    assert [entry][1..] == [];
  }

  lemma NetByAmountStep(m: map<int, int>, order: seq<int>, before: seq<Entry>, entry: Entry)
    requires order == Amounts(before) && NetByAmount(m, order, before)
    ensures entry.amount in order ==>
              NetByAmount(m[entry.amount := m[entry.amount] + Signed(entry)], order, before + [entry])
    ensures entry.amount !in order ==>
              NetByAmount(m[entry.amount := Signed(entry)], order + [entry.amount], before + [entry])
  {
    forall a ensures Net(before + [entry], PacketsOf(a)) == Net(before, PacketsOf(a)) + (if entry.amount == a then Signed(entry) else 0) {
      NetSnoc(before, entry, a);
    }
    if entry.amount !in order {
      NetUnused(before, entry.amount);
    }
  }

  lemma NoPositiveLots(rows: seq<Entry>)
    ensures PositiveLots(rows, []) == []
  {
  }

  lemma PositiveLotsSnoc(rows: seq<Entry>, amounts: seq<int>, a: int)
    ensures PositiveLots(rows, amounts + [a]) ==
            PositiveLots(rows, amounts) + (if Net(rows, PacketsOf(a)) > 0 then [FdLot(a, Net(rows, PacketsOf(a)))] else [])
  {
    if amounts == [] {
      assert [] + [a] == [a] && [a][1..] == [];
    } else {
      assert (amounts + [a])[1..] == amounts[1..] + [a];
      PositiveLotsSnoc(rows, amounts[1..], a);
    }
  }

  lemma BreakRejects(ledger: Ledger, quantity: int, denomination: Denomination)
    ensures quantity <= 0 ==> FdLedger.BreakPackets(ledger, quantity, denomination) == Failure(BadBreakQuantity)
    ensures 0 < quantity && denomination.Of? && denomination.amount <= 0 ==>
              FdLedger.BreakPackets(ledger, quantity, denomination) == Failure(BadDenomination)
  {
  }

  lemma BreakAnswers(ledger: Ledger, quantity: int, denomination: Denomination)
    requires 0 < quantity && (denomination.Of? ==> 0 < denomination.amount)
    ensures var lots := Candidates(ledger.rows, denomination);
            var inserts := BreakRows(lots, ledger.rows, quantity, ledger.nextId);
            FdLedger.BreakPackets(ledger, quantity, denomination) ==
            if quantity > Available(lots, ledger.rows) then Failure(ExceedsAvailable(Available(lots, ledger.rows)))
            else Success((Insert(ledger, inserts),
                          BreakReceipt(Broken(inserts, Rupees),
                                       Summarize(ledger.rows).remainingPackets - quantity,
                                       Summarize(ledger.rows).fdBalance - Broken(inserts, Rupees))))
  {
  }

  lemma AvailableShown(ledger: Ledger, denomination: Denomination)
    requires WellFormed(ledger) && (denomination.Of? ==> 0 < denomination.amount)
    ensures Available(Candidates(ledger.rows, denomination), ledger.rows) == Shown(Summarize(ledger.rows), denomination)
  {
    hide WellFormed, Candidates, Available;
    AvailableIsNet(ledger, denomination);
    ShownIsNet(ledger, denomination);
  }

  /** What an accepted break adds to the table. */
  lemma BreakTakes(ledger: Ledger, quantity: int, denomination: Denomination)
    requires WellFormed(ledger) && FdLedger.BreakPackets(ledger, quantity, denomination).Success?
    ensures var (after, receipt) := FdLedger.BreakPackets(ledger, quantity, denomination).value;
            var n := |ledger.rows|;
            && n <= |after.rows| && after.rows[..n] == ledger.rows
            && FdAllocation.TakenOldestFirst(ledger.rows, after.rows[n..], denomination)
            && Broken(after.rows[n..], Packets) == quantity
            && receipt.rupees == Broken(after.rows[n..], Rupees)
  {
    hide WellFormed, FdAllocation.TakenOldestFirst, Broken, BreakInserts;
    FdAllocation.OldestFirst(ledger, quantity, denomination);
    var after, inserts := FdLedger.BreakPackets(ledger, quantity, denomination).value.0, BreakInserts(ledger, quantity, denomination).value;
    assert after.rows == ledger.rows + inserts && after.rows[|ledger.rows|..] == inserts;
  }

  lemma SummaryOrdered(rows: seq<Entry>)
    ensures Summarize(FindManyOrdered(rows)).remainingPackets == Summarize(rows).remainingPackets
    ensures Summarize(FindManyOrdered(rows)).fdBalance == Summarize(rows).fdBalance
  {
    OrderingKeepsFigures(rows, Packets, 0);
    OrderingKeepsFigures(rows, Rupees, 0);
  }

  class FdLedgerService {
    var rows: seq<Entry>
    var nextId: nat

    ghost function Contents(): Ledger
      reads this
    {
      Ledger(rows, nextId)
    }

    constructor ()
      ensures Contents() == Ledger([], 0)
    {
      rows, nextId := [], 0;
    }

    method SummarizeEntries(entries: seq<Entry>) returns (s: Summary)
      ensures s == Summarize(entries)
    {
      hide Contributed, Broken, Amounts, PositiveLots, SortByAmount;
      NothingTotalled();
      var contributedPackets, contributedRupees, brokenPackets, brokenRupees := 0, 0, 0, 0;
      var remainingByAmount: map<int, int>, order: seq<int> := map[], [];
      for i := 0 to |entries|
        invariant contributedPackets == Contributed(entries[..i], Packets)
        invariant contributedRupees == Contributed(entries[..i], Rupees)
        invariant brokenPackets == Broken(entries[..i], Packets)
        invariant brokenRupees == Broken(entries[..i], Rupees)
        invariant order == Amounts(entries[..i])
        invariant NetByAmount(remainingByAmount, order, entries[..i])
      {
        var entry := entries[i];
        var rupees := entry.amount * entry.quantity;
        var signedQuantity := if entry.Contribution? then entry.quantity else -entry.quantity;
        ghost var before := entries[..i];
        assert entries[..i + 1] == before + [entry];
        LastEntry(before, entry);
        if entry.Contribution? {
          contributedPackets := contributedPackets + entry.quantity;
          contributedRupees := contributedRupees + rupees;
        } else {
          brokenPackets := brokenPackets + entry.quantity;
          brokenRupees := brokenRupees + rupees;
        }
        NetByAmountStep(remainingByAmount, order, before, entry);
        if entry.amount in remainingByAmount {
          remainingByAmount := remainingByAmount[entry.amount := remainingByAmount[entry.amount] + signedQuantity];
        } else {
          order := order + [entry.amount];
          remainingByAmount := remainingByAmount[entry.amount := signedQuantity];
        }
      }
      assert entries[..|entries|] == entries;
      var lots := [];
      NoPositiveLots(entries);
      for k := 0 to |order|
        invariant lots == PositiveLots(entries, order[..k])
      {
        assert order[k] in order;
        var remaining := remainingByAmount[order[k]];
        assert order[..k + 1] == order[..k] + [order[k]];
        PositiveLotsSnoc(entries, order[..k], order[k]);
        if remaining > 0 {
          lots := lots + [FdLot(order[k], remaining)];
        }
      }
      assert order[..|order|] == order;
      s := Summary(contributedPackets - brokenPackets, contributedRupees - brokenRupees, brokenRupees, SortByAmount(lots));
    }

    method SyncContribution(period: Period, packet: Packet) returns (r: Result<(), FdError>)
      modifies this
      ensures match Sync(old(Contents()), period, packet)
              case Success(after) => r == Success(()) && Contents() == after
              case Failure(e) => r == Failure(e) && Contents() == old(Contents())
      ensures WellFormed(old(Contents())) ==>
                forall lot <- old(rows) :: lot.Contribution? && lot.period == period ==>
                  var consumed := Consumed(old(rows), lot.id);
                  r == (if packet.quantity < consumed then Failure(BelowBroken(consumed))
                        else if consumed > 0 && lot.amount != packet.amount then Failure(RepricedAfterBreak)
                        else Success(()))
      ensures (forall lot <- old(rows) :: lot.Contribution? ==> lot.period != period) ==> r == Success(())
    {
      var existing := IndexOfPeriod(rows, period);
      match existing
      case Some(i) =>
        var lot := rows[i];
        var consumed := Consumed(rows, lot.id);
        if packet.quantity < consumed {
          return Failure(BelowBroken(consumed));
        }
        if consumed > 0 && lot.amount != packet.amount {
          return Failure(RepricedAfterBreak);
        }
        rows := rows[i := Contribution(lot.id, packet.amount, packet.quantity, period)];
        return Success(());
      case None =>
        rows := rows + [Contribution(nextId, packet.amount, packet.quantity, period)];
        nextId := nextId + 1;
        return Success(());
    }

    method BreakPackets(quantity: int, denomination: Denomination) returns (r: Result<BreakReceipt, FdError>)
      modifies this
      ensures match FdLedger.BreakPackets(old(Contents()), quantity, denomination)
              case Success(p) => r == Success(p.1) && Contents() == p.0
              case Failure(e) => r == Failure(e) && Contents() == old(Contents())
      ensures r.Success? && WellFormed(old(Contents())) ==>
                && |old(rows)| <= |rows| && rows[..|old(rows)|] == old(rows)
                && FdAllocation.TakenOldestFirst(old(rows), rows[|old(rows)|..], denomination)
                && Broken(rows[|old(rows)|..], Packets) == quantity
                && r.value.rupees == Broken(rows[|old(rows)|..], Rupees)
      ensures quantity <= 0 <==> r == Failure(BadBreakQuantity)
      ensures 0 < quantity && denomination.Of? && denomination.amount <= 0 <==> r == Failure(BadDenomination)
      ensures WellFormed(old(Contents())) && 0 < quantity && (denomination.Of? ==> 0 < denomination.amount) ==>
                var shown := Shown(Summarize(old(rows)), denomination);
                if quantity <= shown then r.Success? else r == Failure(ExceedsAvailable(shown))
    {
      ghost var ledger := Contents();
      hide BreakRows, Broken, Consumed, FindManyOrdered, Candidates, Contributions, OfDenomination, Available;
      hide Summarize, Insert, FdLedger.BreakPackets, WellFormed, FdAllocation.TakenOldestFirst, Shown;
      BreakRejects(Contents(), quantity, denomination);
      if quantity <= 0 {
        return Failure(BadBreakQuantity);
      }
      if denomination.Of? && denomination.amount <= 0 {
        return Failure(BadDenomination);
      }
      BreakAnswers(Contents(), quantity, denomination);
      var entries := FindManyOrdered(rows);
      var contributions := OfDenomination(Contributions(entries), denomination);
      OrderedCandidates(rows, denomination);

      if WellFormed(ledger) { AvailableShown(ledger, denomination); }
      var consumedBySource := ConsumedBySource(entries);
      forall id: nat ensures Lookup(consumedBySource, id) == Consumed(rows, id) {
        OrderingKeepsFigures(rows, Packets, id);
      }

      var available := AvailablePackets(contributions, consumedBySource);
      if quantity > available {
        return Failure(ExceedsAvailable(available));
      }

      SummaryOrdered(rows);
      var rupees := InsertBreaks(contributions, consumedBySource, quantity);
      var summary := SummarizeEntries(entries);
      if WellFormed(ledger) { BreakTakes(ledger, quantity, denomination); }
      return Success(BreakReceipt(rupees, summary.remainingPackets - quantity, summary.fdBalance - rupees));
    }

    method AvailablePackets(contributions: seq<Entry>, consumedBySource: map<nat, int>) returns (available: int)
      requires forall id :: Lookup(consumedBySource, id) == Consumed(rows, id)
      ensures available == Available(contributions, rows)
    {
      available := 0;
      for i := 0 to |contributions|
        invariant available + Available(contributions[i..], rows) == Available(contributions, rows)
      {
        assert contributions[i..][1..] == contributions[i + 1..];
        available := available + Max(0, contributions[i].quantity - Lookup(consumedBySource, contributions[i].id));
      }
    }

    /** The allocation loop of a break, after its checks. */
    method InsertBreaks(contributions: seq<Entry>, consumedBySource: map<nat, int>, quantity: int) returns (rupees: int)
      requires 0 < quantity
      requires forall id :: Lookup(consumedBySource, id) == Consumed(rows, id)
      modifies this
      ensures Contents() == Insert(old(Contents()), BreakRows(contributions, old(rows), quantity, old(nextId)))
      ensures rupees == Broken(BreakRows(contributions, old(rows), quantity, old(nextId)), Rupees)
    {
      hide BreakRows, Broken, Consumed;
      NothingTotalled();
      assert contributions[0..] == contributions;
      var needed, i := quantity, 0;
      rupees := 0;
      ghost var before := rows;
      ghost var inserts: seq<Entry> := [];
      while i < |contributions| && needed != 0
        invariant 0 <= i <= |contributions| && 0 <= needed
        invariant rows == before + inserts
        invariant nextId == old(nextId) + |inserts|
        invariant rupees == Broken(inserts, Rupees)
        invariant BreakRows(contributions, before, quantity, old(nextId)) ==
                  inserts + BreakRows(contributions[i..], before, needed, nextId)
      {
        var lot := contributions[i];
        var remaining := Max(0, lot.quantity - Lookup(consumedBySource, lot.id));
        var take := Min(remaining, needed);
        BreakRowsStep(contributions, i, before, needed, nextId);
        if take != 0 {
          var row := Break(nextId, lot.amount, take, lot.id);
          LastBroken(inserts, row);
          rows := rows + [row];
          nextId := nextId + 1;
          rupees := rupees + lot.amount * take;
          needed := needed - take;
          inserts := inserts + [row];
        }
        i := i + 1;
      }
      BreakRowsDone(contributions[i..], before, needed, nextId);
      assert inserts + [] == inserts;
    }

    method ConsumedBySource(entries: seq<Entry>) returns (m: map<nat, int>)
      ensures forall id :: Lookup(m, id) == Consumed(entries, id)
    {
      m := map[];
      hide Consumed;
      NothingConsumed();
      for i := 0 to |entries|
        invariant forall id :: Lookup(m, id) == Consumed(entries[..i], id)
      {
        var entry := entries[i];
        assert entries[..i + 1] == entries[..i] + [entry];
        ConsumedSnoc(entries[..i], entry);
        if entry.Break? {
          m := m[entry.source := Lookup(m, entry.source) + entry.quantity];
        }
      }
      assert entries[..|entries|] == entries;
    }

    method UndoBreak(id: nat) returns (r: Result<UndoReceipt, FdError>)
      modifies this
      ensures match FdLedger.UndoBreak(old(Contents()), id)
              case Success(p) => r == Success(p.1) && Contents() == p.0
              case Failure(e) => r == Failure(e) && Contents() == old(Contents())
      ensures r.Success? <==> exists e <- old(rows) :: e.Break? && e.id == id
      ensures r.Success? ==> exists e <- old(rows) ::
                && e.Break? && e.id == id && r.value == UndoReceipt(e.amount * e.quantity, e.quantity)
                && multiset(rows) == multiset(old(rows)) - multiset{e}
      ensures r.Failure? ==> r.error == NoSuchBreak
    {
      var found := IndexOfBreak(rows, id);
      match found
      case None =>
        return Failure(NoSuchBreak);
      case Some(i) =>
        var row := rows[i];
        assert row in rows && rows == rows[..i] + [row] + rows[i + 1..];
        rows := RemoveAt(rows, i);
        return Success(UndoReceipt(row.amount * row.quantity, row.quantity));
    }
  }
}
