/**
 The fixed-deposit ledger of one tenant: one table that holds contribution rows (lots, at most one
 per plan month) and break rows (packets taken out of a lot).

 Amounts are integers in the smallest money unit. Row ids come from a counter that only grows, which
 stands for randomUUID. A table is the sequence of its rows in creation order.
 */
module FdLedger {
  import opened Wrappers

  datatype Period = Period(year: int, month: int) {
    predicate Before(other: Period) {
      year < other.year || (year == other.year && month < other.month)
    }
  }

  datatype Packet = Packet(amount: int, quantity: int)

  /** What a JSON column can hold where a packet is expected; None is a value that is not a finite
      number (amount) or not an integer (quantity). */
  datatype RawPacket = NotAnObject | Fields(amount: Option<int>, quantity: Option<int>)

  datatype Entry =
    | Contribution(id: nat, amount: int, quantity: int, period: Period)
    | Break(id: nat, amount: int, quantity: int, source: nat)

  datatype Ledger = Ledger(rows: seq<Entry>, nextId: nat)

  datatype Denomination = Any | Of(amount: int)

  datatype FdError =
    | MalformedPacket
    | NegativePacket
    | HalfEmptyPacket
    | BelowBroken(consumed: int)
    | RepricedAfterBreak
    | BadBreakQuantity
    | BadDenomination
    | ExceedsAvailable(available: int)
    | NoSuchBreak

  datatype BreakReceipt = BreakReceipt(rupees: int, remainingPackets: int, fdBalance: int)
  datatype UndoReceipt = UndoReceipt(revertedRupees: int, restoredPackets: int)

  predicate ValidPacket(packet: Packet) {
    && 0 <= packet.amount
    && 0 <= packet.quantity
    && (packet.amount == 0 <==> packet.quantity == 0)
  }

  function NormalizePacket(raw: RawPacket): (r: Result<Packet, FdError>)
    ensures r.Success? <==>
              && raw.Fields? && raw.amount.Some? && raw.quantity.Some?
              && ValidPacket(Packet(raw.amount.value, raw.quantity.value))
    ensures r.Success? ==> raw == Fields(Some(r.value.amount), Some(r.value.quantity))
    ensures r == Failure(MalformedPacket) <==> raw.NotAnObject?
    ensures r == Failure(HalfEmptyPacket) <==>
              raw.Fields? && raw.amount.Some? && raw.quantity.Some?
              && ((raw.amount.value == 0 && 0 < raw.quantity.value) || (0 < raw.amount.value && raw.quantity.value == 0))
  {
    match raw
    case NotAnObject => Failure(MalformedPacket)
    case Fields(amount, quantity) =>
      if amount.None? || amount.value < 0 || quantity.None? || quantity.value < 0 then Failure(NegativePacket)
      else if (amount.value == 0) != (quantity.value == 0) then Failure(HalfEmptyPacket)
      else Success(Packet(amount.value, quantity.value))
  }

  // ---------------------------------------------------------------------------------------------
  // Queries
  // ---------------------------------------------------------------------------------------------

  function Contributions(rows: seq<Entry>): (lots: seq<Entry>)
    ensures forall e :: e in lots <==> e in rows && e.Contribution?
  {
    if rows == [] then []
    else if rows[0].Contribution? then [rows[0]] + Contributions(rows[1..])
    else Contributions(rows[1..])
  }

  /** Packets already broken out of the lot `id`. */
  function Consumed(rows: seq<Entry>, id: nat): int {
    if rows == [] then 0
    else (if rows[0].Break? && rows[0].source == id then rows[0].quantity else 0) + Consumed(rows[1..], id)
  }

  function Remaining(rows: seq<Entry>, lot: Entry): int {
    Max(0, lot.quantity - Consumed(rows, lot.id))
  }

  function InsertByPeriod(lot: Entry, lots: seq<Entry>): (r: seq<Entry>)
    requires lot.Contribution? && forall e <- lots :: e.Contribution?
    ensures forall e :: e in r <==> e == lot || e in lots
  {
    if lots == [] || lot.period.Before(lots[0].period) then [lot] + lots
    else [lots[0]] + InsertByPeriod(lot, lots[1..])
  }

  /** ORDER BY year, month: the order in which lots are used up. */
  function SortByPeriod(lots: seq<Entry>): (r: seq<Entry>)
    requires forall e <- lots :: e.Contribution?
    ensures forall e :: e in r <==> e in lots
  {
    if lots == [] then [] else InsertByPeriod(lots[0], SortByPeriod(lots[1..]))
  }

  predicate Matches(denomination: Denomination, amount: int) {
    denomination.Any? || denomination.amount == amount
  }

  function OfDenomination(lots: seq<Entry>, denomination: Denomination): (r: seq<Entry>)
    ensures forall e :: e in r <==> e in lots && Matches(denomination, e.amount)
  {
    if lots == [] then []
    else if Matches(denomination, lots[0].amount) then [lots[0]] + OfDenomination(lots[1..], denomination)
    else OfDenomination(lots[1..], denomination)
  }

  /** The lots a break may use, oldest first. */
  function Candidates(rows: seq<Entry>, denomination: Denomination): (r: seq<Entry>)
    ensures forall e :: e in r <==> e in rows && e.Contribution? && Matches(denomination, e.amount)
  {
    OfDenomination(SortByPeriod(Contributions(rows)), denomination)
  }

  function Available(lots: seq<Entry>, rows: seq<Entry>): (r: int)
    ensures 0 <= r
  {
    if lots == [] then 0 else Remaining(rows, lots[0]) + Available(lots[1..], rows)
  }

  function IndexOfPeriod(rows: seq<Entry>, period: Period): (r: Option<nat>)
    ensures r.Some? ==> r.value < |rows| && rows[r.value].Contribution? && rows[r.value].period == period
    ensures r.None? ==> forall e <- rows :: e.Contribution? ==> e.period != period
  {
    if rows == [] then None
    else if rows[0].Contribution? && rows[0].period == period then Some(0)
    else match IndexOfPeriod(rows[1..], period)
      case Some(i) => Some(i + 1)
      case None => None
  }

  function IndexOfBreak(rows: seq<Entry>, id: nat): (r: Option<nat>)
    ensures r.Some? ==> r.value < |rows| && rows[r.value].Break? && rows[r.value].id == id
    ensures r.None? ==> forall e <- rows :: e.Break? ==> e.id != id
  {
    if rows == [] then None
    else if rows[0].Break? && rows[0].id == id then Some(0)
    else match IndexOfBreak(rows[1..], id)
      case Some(i) => Some(i + 1)
      case None => None
  }

  // ---------------------------------------------------------------------------------------------
  // Weighted totals: packets, packets of one denomination, rupees
  // ---------------------------------------------------------------------------------------------

  datatype Weight = Packets | PacketsOf(amount: int) | Rupees

  function WeightOf(w: Weight, amount: int): int {
    match w
    case Packets => 1
    case PacketsOf(d) => if amount == d then 1 else 0
    case Rupees => amount
  }

  function Contributed(rows: seq<Entry>, w: Weight): int {
    if rows == [] then 0
    else (if rows[0].Contribution? then WeightOf(w, rows[0].amount) * rows[0].quantity else 0)
         + Contributed(rows[1..], w)
  }

  function Broken(rows: seq<Entry>, w: Weight): int {
    if rows == [] then 0
    else (if rows[0].Break? then WeightOf(w, rows[0].amount) * rows[0].quantity else 0)
         + Broken(rows[1..], w)
  }

  // ---------------------------------------------------------------------------------------------
  // Transactions
  // ---------------------------------------------------------------------------------------------

  function Sync(ledger: Ledger, period: Period, packet: Packet): Result<Ledger, FdError> {
    match IndexOfPeriod(ledger.rows, period)
    case Some(i) =>
      var lot := ledger.rows[i];
      var consumed := Consumed(ledger.rows, lot.id);
      if packet.quantity < consumed then Failure(BelowBroken(consumed))
      else if consumed > 0 && lot.amount != packet.amount then Failure(RepricedAfterBreak)
      else Success(ledger.(rows := ledger.rows[i := Contribution(lot.id, packet.amount, packet.quantity, period)]))
    case None =>
      Success(Ledger(ledger.rows + [Contribution(ledger.nextId, packet.amount, packet.quantity, period)],
                     ledger.nextId + 1))
  }

  /** The break rows one accepted break inserts. */
  function BreakRows(lots: seq<Entry>, rows: seq<Entry>, needed: int, nextId: nat): (r: seq<Entry>)
    ensures forall e <- r :: e.Break?
  {
    if lots == [] || needed == 0 then []
    else
      var take := Min(Remaining(rows, lots[0]), needed);
      if take == 0 then BreakRows(lots[1..], rows, needed, nextId)
      else [Break(nextId, lots[0].amount, take, lots[0].id)]
           + BreakRows(lots[1..], rows, needed - take, nextId + 1)
  }

  function BreakInserts(ledger: Ledger, quantity: int, denomination: Denomination): (r: Result<seq<Entry>, FdError>)
    ensures r.Success? ==> forall e <- r.value :: e.Break?
  {
    var lots := Candidates(ledger.rows, denomination);
    if quantity <= 0 then Failure(BadBreakQuantity)
    else if denomination.Of? && denomination.amount <= 0 then Failure(BadDenomination)
    else if quantity > Available(lots, ledger.rows) then Failure(ExceedsAvailable(Available(lots, ledger.rows)))
    else Success(BreakRows(lots, ledger.rows, quantity, ledger.nextId))
  }

  function Insert(ledger: Ledger, inserts: seq<Entry>): Ledger {
    Ledger(ledger.rows + inserts, ledger.nextId + |inserts|)
  }

  function BreakPackets(ledger: Ledger, quantity: int, denomination: Denomination)
    : Result<(Ledger, BreakReceipt), FdError>
  {
    match BreakInserts(ledger, quantity, denomination)
    case Failure(e) => Failure(e)
    case Success(inserts) =>
      var rupees := Broken(inserts, Rupees);
      Success((Insert(ledger, inserts),
               BreakReceipt(rupees,
                            Contributed(ledger.rows, Packets) - Broken(ledger.rows, Packets) - quantity,
                            Contributed(ledger.rows, Rupees) - Broken(ledger.rows, Rupees) - rupees)))
  }

  function RemoveAt(rows: seq<Entry>, i: nat): seq<Entry>
    requires i < |rows|
  {
    rows[..i] + rows[i + 1..]
  }

  function UndoBreak(ledger: Ledger, id: nat): Result<(Ledger, UndoReceipt), FdError> {
    match IndexOfBreak(ledger.rows, id)
    case None => Failure(NoSuchBreak)
    case Some(i) =>
      var row := ledger.rows[i];
      Success((ledger.(rows := RemoveAt(ledger.rows, i)), UndoReceipt(row.amount * row.quantity, row.quantity)))
  }

  // ---------------------------------------------------------------------------------------------
  // The invariant
  // ---------------------------------------------------------------------------------------------

  ghost predicate UniqueIds(rows: seq<Entry>) {
    forall i, j :: 0 <= i < j < |rows| ==> rows[i].id != rows[j].id
  }

  ghost predicate UniquePeriods(rows: seq<Entry>) {
    forall i, j :: 0 <= i < j < |rows| && rows[i].Contribution? && rows[j].Contribution? ==>
                     rows[i].period != rows[j].period
  }

  ghost predicate HasLot(rows: seq<Entry>, id: nat, amount: int) {
    exists lot :: lot in rows && lot.Contribution? && lot.id == id && lot.amount == amount
  }

  /** Every break took a positive number of packets, at the price of the lot it names. */
  ghost predicate BreaksPriced(rows: seq<Entry>) {
    forall e <- rows :: e.Break? ==> 0 < e.quantity && HasLot(rows, e.source, e.amount)
  }

  /** No lot has given out more packets than it holds. */
  ghost predicate LotsCovered(rows: seq<Entry>) {
    forall e <- rows :: e.Contribution? ==>
                          ValidPacket(Packet(e.amount, e.quantity)) && Consumed(rows, e.id) <= e.quantity
  }

  ghost predicate WellFormed(ledger: Ledger) {
    && (forall e <- ledger.rows :: e.id < ledger.nextId)
    && UniqueIds(ledger.rows)
    && UniquePeriods(ledger.rows)
    && BreaksPriced(ledger.rows)
    && LotsCovered(ledger.rows)
  }

  // ---------------------------------------------------------------------------------------------
  // Basic facts
  // ---------------------------------------------------------------------------------------------

  lemma ConsumedAppend(a: seq<Entry>, b: seq<Entry>, id: nat)
    ensures Consumed(a + b, id) == Consumed(a, id) + Consumed(b, id)
  {
    if a == [] {
      assert a + b == b;
    } else {
      assert (a + b)[1..] == a[1..] + b;
      ConsumedAppend(a[1..], b, id);
    }
  }

  lemma ContributionsAppend(a: seq<Entry>, b: seq<Entry>)
    ensures Contributions(a + b) == Contributions(a) + Contributions(b)
  {
    if a == [] {
      assert a + b == b;
    } else {
      assert (a + b)[1..] == a[1..] + b;
      ContributionsAppend(a[1..], b);
    }
  }

  lemma TotalsAppend(a: seq<Entry>, b: seq<Entry>, w: Weight)
    ensures Contributed(a + b, w) == Contributed(a, w) + Contributed(b, w)
    ensures Broken(a + b, w) == Broken(a, w) + Broken(b, w)
  {
    if a == [] {
      assert a + b == b;
    } else {
      assert (a + b)[1..] == a[1..] + b;
      TotalsAppend(a[1..], b, w);
    }
  }

  lemma NoContributions(rows: seq<Entry>, w: Weight)
    requires forall e <- rows :: e.Break?
    ensures Contributions(rows) == [] && Contributed(rows, w) == 0
  {
    if rows != [] {
      NoContributions(rows[1..], w);
    }
  }

  lemma ConsumedNonNegative(rows: seq<Entry>, id: nat)
    requires forall e <- rows :: e.Break? ==> 0 < e.quantity
    ensures 0 <= Consumed(rows, id)
  {
    if rows != [] {
      ConsumedNonNegative(rows[1..], id);
    }
  }

  /** A lot that some break names has been consumed. */
  lemma ConsumedByRow(rows: seq<Entry>, e: Entry)
    requires forall e <- rows :: e.Break? ==> 0 < e.quantity
    requires e in rows && e.Break?
    ensures e.quantity <= Consumed(rows, e.source)
  {
    if rows[0] == e {
      ConsumedNonNegative(rows[1..], e.source);
    } else {
      ConsumedByRow(rows[1..], e);
    }
  }

  lemma ConsumedUnnamed(rows: seq<Entry>, id: nat)
    requires forall e <- rows :: e.Break? ==> e.source != id
    ensures Consumed(rows, id) == 0
  {
    if rows != [] {
      ConsumedUnnamed(rows[1..], id);
    }
  }

  lemma ConsumedUpdate(rows: seq<Entry>, i: nat, lot: Entry, id: nat)
    requires i < |rows| && rows[i].Contribution? && lot.Contribution?
    ensures Consumed(rows[i := lot], id) == Consumed(rows, id)
  {
    if i > 0 {
      assert rows[i := lot][1..] == rows[1..][i - 1 := lot];
      ConsumedUpdate(rows[1..], i - 1, lot, id);
    }
  }
}
