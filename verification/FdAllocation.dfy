/**
 What the oldest-first allocator takes from each lot, stated without its loop: lot i gives
 whatever is still needed after the lots before it are exhausted, and never more than it holds.
 */
module FdAllocation {
  import opened Wrappers
  import opened FdLedger

  ghost predicate Sorted(lots: seq<Entry>)
    requires forall e <- lots :: e.Contribution?
  {
    forall i, j :: 0 <= i < j < |lots| ==> lots[i].period.Before(lots[j].period)
  }

  /** The packets lot `i` gives to a break of `needed` packets. */
  function TakeAt(lots: seq<Entry>, rows: seq<Entry>, needed: int, i: nat): int
    requires i < |lots|
  {
    Max(0, Min(needed - Available(lots[..i], rows), Remaining(rows, lots[i])))
  }

  // ---------------------------------------------------------------------------------------------
  // The candidate list
  // ---------------------------------------------------------------------------------------------

  lemma InsertOrdered(lot: Entry, lots: seq<Entry>)
    requires lot.Contribution? && forall e <- lots :: e.Contribution?
    requires Sorted(lots) && UniqueIds(lots)
    requires forall e <- lots :: e.period != lot.period && e.id != lot.id
    ensures Sorted(InsertByPeriod(lot, lots)) && UniqueIds(InsertByPeriod(lot, lots))
  {
    if lots == [] || lot.period.Before(lots[0].period) {
    } else {
      InsertOrdered(lot, lots[1..]);
      var rest := InsertByPeriod(lot, lots[1..]);
      assert forall e <- rest :: e == lot || e in lots[1..];
      assert forall j :: 0 <= j < |rest| ==> rest[j] in rest;
    }
  }

  lemma SortOrdered(lots: seq<Entry>)
    requires forall e <- lots :: e.Contribution?
    requires UniqueIds(lots) && UniquePeriods(lots)
    ensures Sorted(SortByPeriod(lots)) && UniqueIds(SortByPeriod(lots))
  {
    if lots != [] {
      SortOrdered(lots[1..]);
      InsertOrdered(lots[0], SortByPeriod(lots[1..]));
    }
  }

  lemma ContributionsUnique(rows: seq<Entry>)
    requires UniqueIds(rows) && UniquePeriods(rows)
    ensures UniqueIds(Contributions(rows)) && UniquePeriods(Contributions(rows))
  {
    if rows != [] {
      ContributionsUnique(rows[1..]);
      var rest := Contributions(rows[1..]);
      assert forall j :: 0 <= j < |rest| ==> rest[j] in rest;
    }
  }

  lemma FilterOrdered(lots: seq<Entry>, denomination: Denomination)
    requires forall e <- lots :: e.Contribution?
    requires Sorted(lots) && UniqueIds(lots)
    ensures Sorted(OfDenomination(lots, denomination)) && UniqueIds(OfDenomination(lots, denomination))
  {
    if lots != [] {
      FilterOrdered(lots[1..], denomination);
      var rest := OfDenomination(lots[1..], denomination);
      assert forall j :: 0 <= j < |rest| ==> rest[j] in rest;
    }
  }

  /** Lots come to the allocator each exactly once and oldest first: earlier years first, and within a
      year earlier months first. */
  lemma CandidatesOrdered(rows: seq<Entry>, denomination: Denomination)
    requires UniqueIds(rows) && UniquePeriods(rows)
    ensures Sorted(Candidates(rows, denomination)) && UniqueIds(Candidates(rows, denomination))
    ensures forall i, j :: 0 <= i < j < |Candidates(rows, denomination)| ==>
              var a, b := Candidates(rows, denomination)[i].period, Candidates(rows, denomination)[j].period;
              a.year < b.year || (a.year == b.year && a.month < b.month)
  {
    ContributionsUnique(rows);
    SortOrdered(Contributions(rows));
    FilterOrdered(SortByPeriod(Contributions(rows)), denomination);
  }

  /** The candidates depend on the contribution rows alone. */
  lemma CandidatesIgnoreBreaks(rows: seq<Entry>, inserts: seq<Entry>, denomination: Denomination)
    requires forall e <- inserts :: e.Break?
    ensures Candidates(rows + inserts, denomination) == Candidates(rows, denomination)
  {
    ContributionsAppend(rows, inserts);
    NoContributions(inserts, Packets);
    assert Contributions(rows) + [] == Contributions(rows);
  }

  // ---------------------------------------------------------------------------------------------
  // The inserted rows
  // ---------------------------------------------------------------------------------------------

  lemma BreakRowsShape(lots: seq<Entry>, rows: seq<Entry>, needed: int, nextId: nat)
    requires 0 <= needed
    ensures var inserts := BreakRows(lots, rows, needed, nextId);
            && (forall k :: 0 <= k < |inserts| ==> inserts[k].id == nextId + k)
            && (forall e <- inserts :: e.Break? && 0 < e.quantity
                                       && exists lot :: lot in lots && lot.id == e.source && lot.amount == e.amount)
  {
    if lots != [] && needed != 0 {
      var take := Min(Remaining(rows, lots[0]), needed);
      var next := if take == 0 then nextId else nextId + 1;
      BreakRowsShape(lots[1..], rows, needed - take, next);
      var rest := BreakRows(lots[1..], rows, needed - take, next);
      forall e <- BreakRows(lots, rows, needed, nextId)
        ensures exists lot :: lot in lots && lot.id == e.source && lot.amount == e.amount
      {
        if e in rest {
          var lot :| lot in lots[1..] && lot.id == e.source && lot.amount == e.amount;
          assert lot in lots;
        } else {
          assert lots[0] in lots;
        }
      }
    }
  }

  lemma AvailablePrefixStep(lots: seq<Entry>, rows: seq<Entry>, i: nat)
    requires 0 < i <= |lots|
    ensures Available(lots[..i], rows) == Remaining(rows, lots[0]) + Available(lots[1..][..i - 1], rows)
  {
    assert lots[..i][1..] == lots[1..][..i - 1];
  }

  /** What the first lot gives, and what is then asked of the others. */
  function FirstTake(lots: seq<Entry>, rows: seq<Entry>, needed: int): int
    requires lots != []
  {
    Min(Remaining(rows, lots[0]), needed)
  }

  lemma BreakRowsCons(lots: seq<Entry>, rows: seq<Entry>, needed: int, nextId: nat) returns (next: nat)
    requires lots != [] && 0 < needed
    ensures var rest := BreakRows(lots[1..], rows, needed - FirstTake(lots, rows, needed), next);
            && (forall id :: Consumed(BreakRows(lots, rows, needed, nextId), id)
                             == (if lots[0].id == id then FirstTake(lots, rows, needed) else 0) + Consumed(rest, id))
            && Broken(BreakRows(lots, rows, needed, nextId), Packets) == FirstTake(lots, rows, needed) + Broken(rest, Packets)
  {
    var take := FirstTake(lots, rows, needed);
    next := if take == 0 then nextId else nextId + 1;
    if take != 0 {
      var rest := BreakRows(lots[1..], rows, needed - take, next);
      var head := Break(nextId, lots[0].amount, take, lots[0].id);
      assert BreakRows(lots, rows, needed, nextId) == [head] + rest;
      assert ([head] + rest)[1..] == rest;
    }
  }

  lemma NothingTaken(lots: seq<Entry>, rows: seq<Entry>, needed: int, nextId: nat)
    requires lots == [] || needed == 0
    ensures BreakRows(lots, rows, needed, nextId) == [] && Consumed([], 0) == 0
    ensures forall id :: Consumed(BreakRows(lots, rows, needed, nextId), id) == 0
    ensures Broken(BreakRows(lots, rows, needed, nextId), Packets) == 0
  {
  }

  /** TakeAt by recursion on the lots. */
  lemma TakeAtCons(lots: seq<Entry>, rows: seq<Entry>, needed: int, i: nat)
    requires i < |lots| && 0 <= needed
    ensures i == 0 ==> TakeAt(lots, rows, needed, 0) == FirstTake(lots, rows, needed)
    ensures i > 0 ==> TakeAt(lots, rows, needed, i) == TakeAt(lots[1..], rows, needed - FirstTake(lots, rows, needed), i - 1)
    ensures needed == 0 ==> TakeAt(lots, rows, needed, i) == 0
  {
    if i == 0 {
      assert lots[..0] == [];
    } else {
      AvailablePrefixStep(lots, rows, i);
      assert lots[i] == lots[1..][i - 1];
    }
  }

  /** The rows of one break take exactly TakeAt from each lot and nothing from any other. */
  lemma {:induction false} BreakRowsTake(lots: seq<Entry>, rows: seq<Entry>, needed: int, nextId: nat, id: nat)
    requires 0 <= needed && UniqueIds(lots)
    ensures forall i :: 0 <= i < |lots| && lots[i].id == id ==>
                          Consumed(BreakRows(lots, rows, needed, nextId), id) == TakeAt(lots, rows, needed, i)
    ensures (forall lot <- lots :: lot.id != id) ==> Consumed(BreakRows(lots, rows, needed, nextId), id) == 0
  {
    hide BreakRows, Consumed, TakeAt;
    if lots == [] || needed == 0 {
      NothingTaken(lots, rows, needed, nextId);
      forall i | 0 <= i < |lots| ensures TakeAt(lots, rows, needed, i) == 0 { TakeAtCons(lots, rows, needed, i); }
    } else {
      var next := BreakRowsCons(lots, rows, needed, nextId);
      BreakRowsTake(lots[1..], rows, needed - FirstTake(lots, rows, needed), next, id);
      assert forall k :: 0 <= k < |lots[1..]| ==> lots[1..][k] == lots[k + 1];
      assert lots[0].id == id ==> forall lot <- lots[1..] :: lot.id != id;
      forall i | 0 <= i < |lots| && lots[i].id == id
        ensures Consumed(BreakRows(lots, rows, needed, nextId), id) == TakeAt(lots, rows, needed, i)
      {
        TakeAtCons(lots, rows, needed, i);
        if i > 0 { assert lots[1..][i - 1].id == id && lots[0].id != id; }
      }
      assert lots[0] in lots;
    }
  }

  /** Packets a prefix of the lots gives: everything asked for, or everything the prefix holds. */
  lemma {:induction false} TakesSum(lots: seq<Entry>, rows: seq<Entry>, needed: int, nextId: nat)
    requires 0 <= needed
    ensures Broken(BreakRows(lots, rows, needed, nextId), Packets) == Min(needed, Available(lots, rows))
  {
    hide BreakRows, Broken;
    if lots == [] || needed == 0 {
      NothingTaken(lots, rows, needed, nextId);
    } else {
      var next := BreakRowsCons(lots, rows, needed, nextId);
      TakesSum(lots[1..], rows, needed - FirstTake(lots, rows, needed), next);
    }
  }

  /** A lot gives packets only when every candidate before it is exhausted. */
  lemma EarlierExhausted(ledger: Ledger, quantity: int, denomination: Denomination, i: nat, j: nat)
    requires WellFormed(ledger)
    requires BreakInserts(ledger, quantity, denomination).Success?
    requires i < j < |Candidates(ledger.rows, denomination)|
    ensures var lots := Candidates(ledger.rows, denomination);
            var inserts := BreakInserts(ledger, quantity, denomination).value;
            0 < Consumed(inserts, lots[j].id) ==> Consumed(ledger.rows + inserts, lots[i].id) == lots[i].quantity
  {
    var rows, lots := ledger.rows, Candidates(ledger.rows, denomination);
    var inserts := BreakInserts(ledger, quantity, denomination).value;
    CandidatesOrdered(rows, denomination);
    BreakRowsTake(lots, rows, quantity, ledger.nextId, lots[i].id);
    BreakRowsTake(lots, rows, quantity, ledger.nextId, lots[j].id);
    AvailableMonotone(lots, rows, i, j);
    ConsumedAppend(rows, inserts, lots[i].id);
    assert lots[i] in lots;
  }

  lemma SortedIndex(lots: seq<Entry>, a: Entry, b: Entry) returns (i: nat, j: nat)
    requires (forall e <- lots :: e.Contribution?) && Sorted(lots) && a in lots && b in lots
    requires a.period.year < b.period.year || (a.period.year == b.period.year && a.period.month < b.period.month)
    ensures i < j < |lots| && lots[i] == a && lots[j] == b
  {
    i :| 0 <= i < |lots| && lots[i] == a;
    j :| 0 <= j < |lots| && lots[j] == b;
  }

  /** The rows that one break adds: each takes packets out of a lot of the asked denomination, at its price,
      and only after every such lot of an earlier month has given all its packets. */
  ghost predicate TakenOldestFirst(before: seq<Entry>, inserts: seq<Entry>, denomination: Denomination) {
    && (forall e <- inserts :: && e.Break? && 0 < e.quantity
                               && (denomination.Of? ==> e.amount == denomination.amount)
                               && HasLot(before, e.source, e.amount))
    && (forall e, a, b :: && e in inserts && e.Break? && b in before && b.Contribution? && b.id == e.source
                          && a in before && a.Contribution? && (denomination.Of? ==> a.amount == denomination.amount)
                          && (a.period.year < b.period.year || (a.period.year == b.period.year && a.period.month < b.period.month))
                          ==> Consumed(before + inserts, a.id) == a.quantity)
  }

  /** Oldest first, and from lots of the asked denomination only. */
  lemma OldestFirst(ledger: Ledger, quantity: int, denomination: Denomination)
    requires WellFormed(ledger)
    requires BreakInserts(ledger, quantity, denomination).Success?
    ensures TakenOldestFirst(ledger.rows, BreakInserts(ledger, quantity, denomination).value, denomination)
    ensures Broken(BreakInserts(ledger, quantity, denomination).value, Packets) == quantity
  {
    var rows, lots := ledger.rows, Candidates(ledger.rows, denomination);
    var inserts := BreakInserts(ledger, quantity, denomination).value;
    BreakRowsShape(lots, rows, quantity, ledger.nextId);
    TakesSum(lots, rows, quantity, ledger.nextId);
    CandidatesOrdered(rows, denomination);
    forall e <- inserts
      ensures (denomination.Of? ==> e.amount == denomination.amount) && HasLot(rows, e.source, e.amount)
    {
      var lot :| lot in lots && lot.id == e.source && lot.amount == e.amount;
      assert lot in rows;
    }
    forall e, a, b | && e in inserts && e.Break? && b in rows && b.Contribution? && b.id == e.source
                     && a in rows && a.Contribution? && (denomination.Of? ==> a.amount == denomination.amount)
                     && (a.period.year < b.period.year || (a.period.year == b.period.year && a.period.month < b.period.month))
      ensures Consumed(rows + inserts, a.id) == a.quantity
    {
      var lot :| lot in lots && lot.id == e.source && lot.amount == e.amount;
      SameRow(rows, b, lot);
      var i, j := SortedIndex(lots, a, b);
      ConsumedByRow(inserts, e);
      EarlierExhausted(ledger, quantity, denomination, i, j);
    }
  }

  lemma SameRow(rows: seq<Entry>, a: Entry, b: Entry)
    requires UniqueIds(rows) && a in rows && b in rows && a.id == b.id
    ensures a == b
  {
  }

  lemma {:induction false} AvailableSplit(lots: seq<Entry>, rows: seq<Entry>, i: nat)
    requires i <= |lots|
    ensures Available(lots, rows) == Available(lots[..i], rows) + Available(lots[i..], rows)
  {
    if i == 0 {
      assert lots[..0] == [] && lots[0..] == lots;
    } else {
      AvailablePrefixStep(lots, rows, i);
      AvailableSplit(lots[1..], rows, i - 1);
      assert lots[1..][i - 1..] == lots[i..];
    }
  }

  lemma AvailableMonotone(lots: seq<Entry>, rows: seq<Entry>, i: nat, j: nat)
    requires i < j <= |lots|
    ensures Available(lots[..i], rows) + Remaining(rows, lots[i]) <= Available(lots[..j], rows)
  {
    AvailableSplit(lots[..j], rows, i);
    assert lots[..j][..i] == lots[..i];
    assert lots[..j][i..][0] == lots[i];
  }
}
