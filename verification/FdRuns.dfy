/**
 Every run of plan syncs, breaks and undos keeps the ledger well formed; splitting a break changes
 nothing; undoing a break's rows in any order restores the ledger.
 */
module FdRuns {
  import opened Wrappers
  import opened FdLedger
  import opened FdAllocation

  datatype Op =
    | SyncOp(period: Period, packet: Packet)
    | BreakOp(quantity: int, denomination: Denomination)
    | UndoOp(id: nat)

  /** One transaction; a rejected one leaves the table as it was. */
  function Step(ledger: Ledger, op: Op): Ledger {
    match op
    case SyncOp(period, packet) =>
      (match Sync(ledger, period, packet) case Success(l) => l case Failure(_) => ledger)
    case BreakOp(quantity, denomination) =>
      (match BreakPackets(ledger, quantity, denomination) case Success(p) => p.0 case Failure(_) => ledger)
    case UndoOp(id) =>
      (match UndoBreak(ledger, id) case Success(p) => p.0 case Failure(_) => ledger)
  }

  function Run(ledger: Ledger, ops: seq<Op>): Ledger
    decreases |ops|
  {
    if ops == [] then ledger else Run(Step(ledger, ops[0]), ops[1..])
  }

  const EMPTY := Ledger([], 0)

  /** Callers normalise packets before they sync them. */
  ghost predicate Normalised(ops: seq<Op>) {
    forall op <- ops :: op.SyncOp? ==> ValidPacket(op.packet)
  }

  // ---------------------------------------------------------------------------------------------
  // Preservation, transaction by transaction
  // ---------------------------------------------------------------------------------------------

  /** Fresh break rows that name lots of the table, at their price and within what they still hold. */
  lemma AppendKeeps(ledger: Ledger, inserts: seq<Entry>)
    requires WellFormed(ledger)
    requires forall k :: 0 <= k < |inserts| ==> inserts[k].id == ledger.nextId + k
    requires forall e <- inserts :: e.Break? && 0 < e.quantity && HasLot(ledger.rows, e.source, e.amount)
    requires forall e <- ledger.rows :: e.Contribution? ==> Consumed(inserts, e.id) <= Remaining(ledger.rows, e)
    ensures WellFormed(Insert(ledger, inserts))
  {
    var rows := ledger.rows;
    var after: seq<Entry> := rows + inserts;
    forall e <- after | e.Break?
      ensures 0 < e.quantity && HasLot(after, e.source, e.amount)
    {
      var lot :| lot in rows && lot.Contribution? && lot.id == e.source && lot.amount == e.amount;
      assert lot in after;
    }
    forall e <- after | e.Contribution?
      ensures Consumed(after, e.id) <= e.quantity
    {
      assert e in rows;
      ConsumedAppend(rows, inserts, e.id);
    }
  }

  lemma BreakTakesWithin(rows: seq<Entry>, lots: seq<Entry>, quantity: int, nextId: nat, lot: Entry)
    requires UniqueIds(rows) && UniqueIds(lots) && 0 <= quantity
    requires forall e <- lots :: e in rows
    requires lot in rows
    ensures Consumed(BreakRows(lots, rows, quantity, nextId), lot.id) <= Remaining(rows, lot)
  {
    BreakRowsTake(lots, rows, quantity, nextId, lot.id);
    if e :| e in lots && e.id == lot.id {
      SameLot(rows, e, lot);
      var i :| 0 <= i < |lots| && lots[i] == e;
      assert TakeAt(lots, rows, quantity, i) <= Remaining(rows, lots[i]);
    }
  }

  lemma BreakKeeps(ledger: Ledger, quantity: int, denomination: Denomination)
    requires WellFormed(ledger)
    ensures BreakPackets(ledger, quantity, denomination).Success? ==>
              WellFormed(BreakPackets(ledger, quantity, denomination).value.0)
  {
    if BreakInserts(ledger, quantity, denomination).Success? {
      var rows, lots := ledger.rows, Candidates(ledger.rows, denomination);
      var inserts := BreakRows(lots, rows, quantity, ledger.nextId);
      CandidatesOrdered(rows, denomination);
      BreakRowsShape(lots, rows, quantity, ledger.nextId);
      forall e <- inserts ensures HasLot(rows, e.source, e.amount) {
        var lot :| lot in lots && lot.id == e.source && lot.amount == e.amount;
        assert lot in rows;
      }
      forall e <- rows | e.Contribution? ensures Consumed(inserts, e.id) <= Remaining(rows, e) {
        BreakTakesWithin(rows, lots, quantity, ledger.nextId, e);
      }
      AppendKeeps(ledger, inserts);
    }
  }

  lemma SameLot(rows: seq<Entry>, a: Entry, b: Entry)
    requires UniqueIds(rows) && a in rows && b in rows && a.id == b.id
    ensures a == b
  {
  }

  /** Rewriting a lot in place: every row that named it still finds it at its price. */
  lemma UpdateKeeps(ledger: Ledger, i: nat, packet: Packet)
    requires WellFormed(ledger) && ValidPacket(packet)
    requires i < |ledger.rows| && ledger.rows[i].Contribution?
    requires Consumed(ledger.rows, ledger.rows[i].id) <= packet.quantity
    requires Consumed(ledger.rows, ledger.rows[i].id) > 0 ==> ledger.rows[i].amount == packet.amount
    ensures var lot := Contribution(ledger.rows[i].id, packet.amount, packet.quantity, ledger.rows[i].period);
            WellFormed(ledger.(rows := ledger.rows[i := lot]))
  {
    hide Consumed;
    var rows := ledger.rows;
    var lot := Contribution(rows[i].id, packet.amount, packet.quantity, rows[i].period);
    var after := rows[i := lot];
    forall id ensures Consumed(after, id) == Consumed(rows, id) {
      ConsumedUpdate(rows, i, lot, id);
    }
    forall e <- after ensures e == lot || e in rows {}
    forall e <- after | e.Break? ensures HasLot(after, e.source, e.amount) {
      ConsumedByRow(rows, e);
      var prior :| prior in rows && prior.Contribution? && prior.id == e.source && prior.amount == e.amount;
      var k :| 0 <= k < |rows| && rows[k] == prior;
      assert after[k] in after;
      if k == i { assert after[k] == lot; }
    }
  }

  /** A new lot, under a fresh id and for a month without one. */
  lemma InsertKeeps(ledger: Ledger, period: Period, packet: Packet)
    requires WellFormed(ledger) && ValidPacket(packet)
    requires forall e <- ledger.rows :: e.Contribution? ==> e.period != period
    ensures WellFormed(Insert(ledger, [Contribution(ledger.nextId, packet.amount, packet.quantity, period)]))
  {
    hide Consumed;
    var rows, lot := ledger.rows, Contribution(ledger.nextId, packet.amount, packet.quantity, period);
    var after := rows + [lot];
    NothingConsumedBy(lot);
    forall id ensures Consumed(after, id) == Consumed(rows, id) {
      ConsumedAppend(rows, [lot], id);
    }
    forall e <- rows | e.Break? ensures e.source != lot.id {
      var prior :| prior in rows && prior.Contribution? && prior.id == e.source && prior.amount == e.amount;
    }
    ConsumedUnnamed(rows, lot.id);
    forall e <- after | e.Break? ensures HasLot(after, e.source, e.amount) {
      var prior :| prior in rows && prior.Contribution? && prior.id == e.source && prior.amount == e.amount;
      assert prior in after;
    }
    assert forall k :: 0 <= k < |rows| ==> rows[k] in rows;
  }

  lemma NothingConsumedBy(lot: Entry)
    requires lot.Contribution?
    ensures forall id :: Consumed([lot], id) == 0
  {
  }

  lemma SyncKeeps(ledger: Ledger, period: Period, packet: Packet)
    requires WellFormed(ledger) && ValidPacket(packet)
    ensures Sync(ledger, period, packet).Success? ==> WellFormed(Sync(ledger, period, packet).value)
  {
    hide WellFormed, Consumed, IndexOfPeriod;
    if Sync(ledger, period, packet).Success? {
      match IndexOfPeriod(ledger.rows, period) {
        case Some(i) => UpdateKeeps(ledger, i, packet);
        case None => InsertKeeps(ledger, period, packet);
      }
    }
  }

  lemma ConsumedRemove(rows: seq<Entry>, i: nat, id: nat)
    requires i < |rows|
    ensures Consumed(rows, id) ==
            Consumed(RemoveAt(rows, i), id) + (if rows[i].Break? && rows[i].source == id then rows[i].quantity else 0)
  {
    assert rows == rows[..i] + [rows[i]] + rows[i + 1..];
    ConsumedAppend(rows[..i] + [rows[i]], rows[i + 1..], id);
    ConsumedAppend(rows[..i], [rows[i]], id);
    ConsumedAppend(rows[..i], rows[i + 1..], id);
  }

  lemma RemoveMembers(rows: seq<Entry>, i: nat)
    requires i < |rows|
    ensures forall e <- RemoveAt(rows, i) :: e in rows
    ensures forall e <- rows :: e != rows[i] ==> e in RemoveAt(rows, i)
  {
    var after := RemoveAt(rows, i);
    forall e <- rows | e != rows[i] ensures e in after {
      var k :| 0 <= k < |rows| && rows[k] == e;
      assert k < i ==> after[k] == e;
      assert i < k ==> after[k - 1] == e;
    }
  }

  lemma RemoveKeepsUnique(rows: seq<Entry>, i: nat)
    requires UniqueIds(rows) && i < |rows|
    ensures UniqueIds(RemoveAt(rows, i))
  {
    var after := RemoveAt(rows, i);
    forall a, b | 0 <= a < b < |after| ensures after[a].id != after[b].id {
      assert after[a] == rows[if a < i then a else a + 1];
      assert after[b] == rows[if b < i then b else b + 1];
    }
  }

  lemma RemoveKeepsPeriods(rows: seq<Entry>, i: nat)
    requires UniquePeriods(rows) && i < |rows|
    ensures UniquePeriods(RemoveAt(rows, i))
  {
    var after := RemoveAt(rows, i);
    forall a, b | 0 <= a < b < |after| && after[a].Contribution? && after[b].Contribution?
      ensures after[a].period != after[b].period
    {
      assert after[a] == rows[if a < i then a else a + 1];
      assert after[b] == rows[if b < i then b else b + 1];
    }
  }

  /** Taking a break row out. */
  lemma RemoveKeeps(ledger: Ledger, i: nat)
    requires WellFormed(ledger) && i < |ledger.rows| && ledger.rows[i].Break?
    ensures WellFormed(ledger.(rows := RemoveAt(ledger.rows, i)))
  {
    hide Consumed, RemoveAt, UniqueIds, UniquePeriods;
    var rows, after := ledger.rows, RemoveAt(ledger.rows, i);
    RemoveMembers(rows, i);
    RemoveKeepsUnique(rows, i);
    RemoveKeepsPeriods(rows, i);
    assert rows[i] in rows;
    forall x ensures Consumed(after, x) <= Consumed(rows, x) {
      ConsumedRemove(rows, i, x);
    }
    forall e <- after | e.Break? ensures HasLot(after, e.source, e.amount) {
      var lot :| lot in rows && lot.Contribution? && lot.id == e.source && lot.amount == e.amount;
      assert lot in after;
    }
  }

  lemma UndoKeeps(ledger: Ledger, id: nat)
    requires WellFormed(ledger)
    ensures UndoBreak(ledger, id).Success? ==> WellFormed(UndoBreak(ledger, id).value.0)
  {
    hide WellFormed;
    if UndoBreak(ledger, id).Success? {
      RemoveKeeps(ledger, IndexOfBreak(ledger.rows, id).value);
    }
  }

  lemma StepKeeps(ledger: Ledger, op: Op)
    requires WellFormed(ledger) && (op.SyncOp? ==> ValidPacket(op.packet))
    ensures WellFormed(Step(ledger, op))
  {
    match op
    case SyncOp(period, packet) => SyncKeeps(ledger, period, packet);
    case BreakOp(quantity, denomination) => BreakKeeps(ledger, quantity, denomination);
    case UndoOp(id) => UndoKeeps(ledger, id);
  }

  lemma {:induction false} RunKeeps(ledger: Ledger, ops: seq<Op>)
    requires WellFormed(ledger) && Normalised(ops)
    ensures WellFormed(Run(ledger, ops))
    decreases |ops|
  {
    if ops != [] {
      StepKeeps(ledger, ops[0]);
      RunKeeps(Step(ledger, ops[0]), ops[1..]);
    }
  }

  /** Safety over every run from the empty table. */
  lemma EveryRunWellFormed(ops: seq<Op>)
    requires Normalised(ops)
    ensures WellFormed(Run(EMPTY, ops))
  {
    RunKeeps(EMPTY, ops);
  }

  /** Exactly when a plan month may be rewritten: never below its broken packets, and never at
      another price once any packet was broken. */
  lemma SyncAcceptedIff(ledger: Ledger, period: Period, packet: Packet)
    requires WellFormed(ledger)
    ensures Sync(ledger, period, packet).Success? <==>
            forall lot <- ledger.rows :: lot.Contribution? && lot.period == period ==>
                                           && Consumed(ledger.rows, lot.id) <= packet.quantity
                                           && (Consumed(ledger.rows, lot.id) > 0 ==> lot.amount == packet.amount)
    ensures Sync(ledger, period, packet).Success? ==>
              var after := Sync(ledger, period, packet).value.rows;
              && (exists lot :: lot in after && lot.Contribution? && lot.period == period
                                && lot.amount == packet.amount && lot.quantity == packet.quantity)
              && (forall e :: e in ledger.rows && (e.Break? || e.period != period) ==> e in after)
              && (forall e :: e in after && (e.Break? || e.period != period) ==> e in ledger.rows)
  {
    var rows := ledger.rows;
    match IndexOfPeriod(rows, period) {
      case Some(i) =>
        forall lot <- rows | lot.Contribution? && lot.period == period ensures lot == rows[i] {}
        if Sync(ledger, period, packet).Success? {
          var after := Sync(ledger, period, packet).value.rows;
          assert after[i] in after;
          forall e | e in rows && (e.Break? || e.period != period) ensures e in after {
            var k :| 0 <= k < |rows| && rows[k] == e;
            assert after[k] == e;
          }
        }
      case None =>
        var lot := Contribution(ledger.nextId, packet.amount, packet.quantity, period);
        assert lot in rows + [lot];
    }
  }

  // ---------------------------------------------------------------------------------------------
  // Splitting a break
  // ---------------------------------------------------------------------------------------------

  /** What a prefix of the lots still holds after a break of q packets. */
  lemma {:induction false} AvailableAfter(lots: seq<Entry>, all: seq<Entry>, rows: seq<Entry>, inserts: seq<Entry>, q: int, n: nat)
    requires 0 <= q && UniqueIds(all) && n <= |all| && lots == all[..n]
    requires forall lot <- all :: 0 <= lot.quantity - Consumed(rows, lot.id)
    requires forall i :: 0 <= i < |all| ==> Consumed(inserts, all[i].id) == TakeAt(all, rows, q, i)
    decreases n
    ensures Available(lots, rows + inserts) == Max(0, Available(lots, rows) - q)
  {
    if n == 0 {
    } else {
      hide Available, Consumed, UniqueIds;
      var last := all[n - 1];
      AvailableAfter(all[..n - 1], all, rows, inserts, q, n - 1);
      assert lots == all[..n - 1] + [last];
      AvailableSnoc(all[..n - 1], last, rows);
      AvailableSnoc(all[..n - 1], last, rows + inserts);
      ConsumedAppend(rows, inserts, last.id);
    }
  }

  lemma AvailableSnoc(lots: seq<Entry>, last: Entry, rows: seq<Entry>)
    ensures Available(lots + [last], rows) == Available(lots, rows) + Remaining(rows, last)
  {
    AvailableSplit(lots + [last], rows, |lots|);
    assert (lots + [last])[..|lots|] == lots && (lots + [last])[|lots|..] == [last];
    assert [last][1..] == [];
  }

  /** TakeAt adds up: what q1 takes, then what q2 takes from the rest, is what q1 + q2 takes. */
  lemma TakesAdd(lots: seq<Entry>, rows: seq<Entry>, inserts: seq<Entry>, q1: int, q2: int, i: nat)
    requires 0 <= q1 && 0 <= q2 && UniqueIds(lots) && i < |lots|
    requires forall lot <- lots :: 0 <= lot.quantity - Consumed(rows, lot.id)
    requires forall k :: 0 <= k < |lots| ==> Consumed(inserts, lots[k].id) == TakeAt(lots, rows, q1, k)
    ensures TakeAt(lots, rows, q1, i) + TakeAt(lots, rows + inserts, q2, i) == TakeAt(lots, rows, q1 + q2, i)
  {
    AvailableAfter(lots[..i], lots, rows, inserts, q1, i);
    ConsumedAppend(rows, inserts, lots[i].id);
    assert lots[i] in lots;
  }

  lemma BreakRowsTakeAt(lots: seq<Entry>, rows: seq<Entry>, needed: int, nextId: nat, i: nat)
    requires 0 <= needed && UniqueIds(lots) && i < |lots|
    ensures Consumed(BreakRows(lots, rows, needed, nextId), lots[i].id) == TakeAt(lots, rows, needed, i)
  {
    BreakRowsTake(lots, rows, needed, nextId, lots[i].id);
  }

  /** The rows of the two breaks together take from every lot what the rows of the one break take. */
  lemma SplitTakes(lots: seq<Entry>, rows: seq<Entry>, q1: int, q2: int, n1: nat, n2: nat, n12: nat, id: nat)
    requires 0 <= q1 && 0 <= q2 && UniqueIds(lots)
    requires forall lot <- lots :: 0 <= lot.quantity - Consumed(rows, lot.id)
    ensures var first := BreakRows(lots, rows, q1, n1);
            Consumed(first, id) + Consumed(BreakRows(lots, rows + first, q2, n2), id)
            == Consumed(BreakRows(lots, rows, q1 + q2, n12), id)
  {
    var first := BreakRows(lots, rows, q1, n1);
    if i :| 0 <= i < |lots| && lots[i].id == id {
      forall k | 0 <= k < |lots| ensures Consumed(first, lots[k].id) == TakeAt(lots, rows, q1, k) {
        BreakRowsTakeAt(lots, rows, q1, n1, k);
      }
      TakesAdd(lots, rows, first, q1, q2, i);
      BreakRowsTakeAt(lots, rows + first, q2, n2, i);
      BreakRowsTakeAt(lots, rows, q1 + q2, n12, i);
    } else {
      BreakRowsTake(lots, rows, q1, n1, id);
      BreakRowsTake(lots, rows + first, q2, n2, id);
      BreakRowsTake(lots, rows, q1 + q2, n12, id);
    }
  }

  lemma SplitAvailable(lots: seq<Entry>, rows: seq<Entry>, q: int, nextId: nat)
    requires 0 <= q && UniqueIds(lots)
    requires forall lot <- lots :: 0 <= lot.quantity - Consumed(rows, lot.id)
    ensures Available(lots, rows + BreakRows(lots, rows, q, nextId)) == Max(0, Available(lots, rows) - q)
  {
    forall k | 0 <= k < |lots| ensures Consumed(BreakRows(lots, rows, q, nextId), lots[k].id) == TakeAt(lots, rows, q, k) {
      BreakRowsTakeAt(lots, rows, q, nextId, k);
    }
    assert lots == lots[..|lots|];
    AvailableAfter(lots, lots, rows, BreakRows(lots, rows, q, nextId), q, |lots|);
  }

  lemma CandidatesCovered(ledger: Ledger, denomination: Denomination)
    requires WellFormed(ledger)
    ensures UniqueIds(Candidates(ledger.rows, denomination))
    ensures forall lot <- Candidates(ledger.rows, denomination) :: 0 <= lot.quantity - Consumed(ledger.rows, lot.id)
  {
    hide Candidates, Consumed;
    CandidatesOrdered(ledger.rows, denomination);
  }

  lemma InsertsAre(ledger: Ledger, quantity: int, denomination: Denomination)
    requires 0 < quantity && (denomination.Of? ==> 0 < denomination.amount)
    ensures var lots := Candidates(ledger.rows, denomination);
            BreakInserts(ledger, quantity, denomination) ==
            if quantity > Available(lots, ledger.rows) then Failure(ExceedsAvailable(Available(lots, ledger.rows)))
            else Success(BreakRows(lots, ledger.rows, quantity, ledger.nextId))
  {
  }

  lemma AcceptedFits(ledger: Ledger, q: int, denomination: Denomination)
    requires BreakInserts(ledger, q, denomination).Success?
    ensures var lots := Candidates(ledger.rows, denomination);
            && 0 < q <= Available(lots, ledger.rows) && (denomination.Of? ==> 0 < denomination.amount)
            && BreakInserts(ledger, q, denomination).value == BreakRows(lots, ledger.rows, q, ledger.nextId)
  {
    hide Candidates, Available, BreakRows;
  }

  /** When q1 + q2 packets can be broken, so can q1 and then q2, from the same candidates. */
  lemma SplitAccepted(ledger: Ledger, q1: int, q2: int, denomination: Denomination)
    requires WellFormed(ledger) && 0 < q1 && 0 < q2
    requires BreakInserts(ledger, q1 + q2, denomination).Success?
    ensures var rows, lots := ledger.rows, Candidates(ledger.rows, denomination);
            var inserts := BreakRows(lots, rows, q1, ledger.nextId);
            var first := Insert(ledger, inserts);
            && BreakInserts(ledger, q1 + q2, denomination) == Success(BreakRows(lots, rows, q1 + q2, ledger.nextId))
            && BreakInserts(ledger, q1, denomination) == Success(inserts)
            && BreakInserts(first, q2, denomination) == Success(BreakRows(lots, rows + inserts, q2, first.nextId))
  {
    var rows, lots := ledger.rows, Candidates(ledger.rows, denomination);
    var inserts := BreakRows(lots, rows, q1, ledger.nextId);
    hide BreakInserts, BreakRows, Candidates, Consumed, Available, WellFormed, Insert, UniqueIds;
    AcceptedFits(ledger, q1 + q2, denomination);
    InsertedRows(ledger, inserts);
    InsertsAre(ledger, q1 + q2, denomination);
    InsertsAre(ledger, q1, denomination);
    InsertsAre(Insert(ledger, inserts), q2, denomination);
    CandidatesCovered(ledger, denomination);
    CandidatesIgnoreBreaks(rows, inserts, denomination);
    SplitAvailable(lots, rows, q1, ledger.nextId);
  }

  lemma SplitConsumed(lots: seq<Entry>, rows: seq<Entry>, q1: int, q2: int, n1: nat, n2: nat, n12: nat, id: nat)
    requires 0 <= q1 && 0 <= q2 && UniqueIds(lots)
    requires forall lot <- lots :: 0 <= lot.quantity - Consumed(rows, lot.id)
    ensures var first := BreakRows(lots, rows, q1, n1);
            Consumed(rows + first + BreakRows(lots, rows + first, q2, n2), id)
            == Consumed(rows + BreakRows(lots, rows, q1 + q2, n12), id)
  {
    hide *;
    var first := BreakRows(lots, rows, q1, n1);
    SplitTakes(lots, rows, q1, q2, n1, n2, n12, id);
    ConsumedSum(rows, first, BreakRows(lots, rows + first, q2, n2), id);
    ConsumedAppend(rows, BreakRows(lots, rows, q1 + q2, n12), id);
  }

  /** Breaking q1 and then q2 packets consumes from every lot what one break of q1 + q2 does. */
  lemma SplitConsumption(ledger: Ledger, q1: int, q2: int, denomination: Denomination, id: nat)
    requires WellFormed(ledger) && 0 < q1 && 0 < q2
    requires BreakInserts(ledger, q1 + q2, denomination).Success?
    ensures BreakInserts(ledger, q1, denomination).Success?
    ensures var first := Insert(ledger, BreakInserts(ledger, q1, denomination).value);
            && BreakInserts(first, q2, denomination).Success?
            && Consumed(Insert(first, BreakInserts(first, q2, denomination).value).rows, id)
               == Consumed(Insert(ledger, BreakInserts(ledger, q1 + q2, denomination).value).rows, id)
  {
    hide *;
    SplitAccepted(ledger, q1, q2, denomination);
    var rows, lots := ledger.rows, Candidates(ledger.rows, denomination);
    var inserts := BreakRows(lots, rows, q1, ledger.nextId);
    var first := Insert(ledger, inserts);
    InsertedRows(ledger, inserts);
    InsertedRows(first, BreakRows(lots, rows + inserts, q2, first.nextId));
    InsertedRows(ledger, BreakRows(lots, rows, q1 + q2, ledger.nextId));
    CandidatesCovered(ledger, denomination);
    SplitConsumed(lots, rows, q1, q2, ledger.nextId, first.nextId, ledger.nextId, id);
  }

  lemma InsertedRows(ledger: Ledger, inserts: seq<Entry>)
    ensures Insert(ledger, inserts).rows == ledger.rows + inserts
  {
  }

  lemma ConsumedSum(a: seq<Entry>, b: seq<Entry>, c: seq<Entry>, id: nat)
    ensures Consumed(a + b + c, id) == Consumed(a, id) + Consumed(b, id) + Consumed(c, id)
  {
    ConsumedAppend(a + b, c, id);
    ConsumedAppend(a, b, id);
  }

  // ---------------------------------------------------------------------------------------------
  // Undoing a break
  // ---------------------------------------------------------------------------------------------

  function Ids(rows: seq<Entry>): seq<nat> {
    seq(|rows|, i requires 0 <= i < |rows| => rows[i].id)
  }

  /** Undo calls for each id in turn; None as soon as one is rejected. */
  function UndoAll(ledger: Ledger, ids: seq<nat>): Option<Ledger>
    decreases |ids|
  {
    if ids == [] then Some(ledger)
    else match UndoBreak(ledger, ids[0])
      case Failure(_) => None
      case Success(p) => UndoAll(p.0, ids[1..])
  }

  /** With unique ids the undo finds the one row of that id. */
  lemma UndoFinds(rows: seq<Entry>, at: nat)
    requires UniqueIds(rows) && at < |rows| && rows[at].Break?
    ensures IndexOfBreak(rows, rows[at].id) == Some(at)
  {
    assert rows[at] in rows;
    var i := IndexOfBreak(rows, rows[at].id).value;
    assert i == at;
  }

  lemma RemoveIds(rows: seq<Entry>, k: nat)
    requires k < |rows|
    ensures multiset(Ids(RemoveAt(rows, k))) == multiset(Ids(rows)) - multiset{rows[k].id}
  {
    assert Ids(rows) == Ids(rows)[..k] + [rows[k].id] + Ids(rows)[k + 1..];
    assert Ids(RemoveAt(rows, k)) == Ids(rows)[..k] + Ids(rows)[k + 1..];
  }

  lemma {:induction false} UndoAllRestores(rows: seq<Entry>, extra: seq<Entry>, nextId: nat, order: seq<nat>)
    requires UniqueIds(rows + extra)
    requires forall e <- extra :: e.Break?
    requires multiset(order) == multiset(Ids(extra))
    ensures UndoAll(Ledger(rows + extra, nextId), order) == Some(Ledger(rows, nextId))
    decreases |extra|
  {
    assert |order| == |multiset(order)| == |multiset(Ids(extra))| == |extra|;
    if order == [] {
      assert rows + extra == rows;
    } else {
      assert order[0] in multiset(order);
      assert order[0] in Ids(extra);
      var k :| 0 <= k < |extra| && extra[k].id == order[0];
      var at := |rows| + k;
      assert (rows + extra)[at] == extra[k];
      UndoFinds(rows + extra, at);
      var rest := RemoveAt(extra, k);
      assert RemoveAt(rows + extra, at) == rows + rest;
      RemoveKeepsUnique(rows + extra, at);
      RemoveIds(extra, k);
      assert order == [order[0]] + order[1..];
      assert multiset(order[1..]) == multiset(order) - multiset{order[0]};
      UndoAllRestores(rows, rest, nextId, order[1..]);
    }
  }

  /** Undoing all rows one break created, in any order, gives back the table as it was. */
  lemma UndoInverts(ledger: Ledger, quantity: int, denomination: Denomination, order: seq<nat>)
    requires WellFormed(ledger)
    requires BreakInserts(ledger, quantity, denomination).Success?
    requires multiset(order) == multiset(Ids(BreakInserts(ledger, quantity, denomination).value))
    ensures var after := BreakPackets(ledger, quantity, denomination).value.0;
            UndoAll(after, order) == Some(Ledger(ledger.rows, after.nextId))
  {
    BreakKeeps(ledger, quantity, denomination);
    var after := BreakPackets(ledger, quantity, denomination).value.0;
    UndoAllRestores(ledger.rows, BreakInserts(ledger, quantity, denomination).value, after.nextId, order);
  }
}
