/**
 The per-card spend of the current calendar month. The query reads only the last 60 months up to the
 end of this one; the theorem is that nothing outside it could have counted.
 */
module CardSummary {
  import opened Wrappers
  import opened EffectiveAmount

  datatype Txn = Txn(cardId: string, amount: real, month: Month, adjustment: Option<Stored>)

  datatype Spend = Spend(raw: real, effective: real)

  function RawShare(t: Txn, cardId: string, now: Month): real {
    if t.cardId == cardId && Index(t.month) == Index(now) then t.amount else 0.0
  }

  function EffectiveShare(t: Txn, cardId: string, now: Month): real {
    if t.cardId == cardId then EffectiveForMonth(t.amount, t.month, now, MapAdjustment(t.adjustment)) else 0.0
  }

  function RawOf(txns: seq<Txn>, cardId: string, now: Month): real {
    if txns == [] then 0.0 else RawShare(txns[0], cardId, now) + RawOf(txns[1..], cardId, now)
  }

  function EffectiveOf(txns: seq<Txn>, cardId: string, now: Month): real {
    if txns == [] then 0.0 else EffectiveShare(txns[0], cardId, now) + EffectiveOf(txns[1..], cardId, now)
  }

  /** gte the first day of the month 60 months back, lt the first day of next month. */
  predicate InWindow(txn: Month, now: Month) {
    Index(now) - 60 <= Index(txn) < Index(now) + 1
  }

  function FindMany(txns: seq<Txn>, cardIds: seq<string>, now: Month): (r: seq<Txn>)
    ensures forall t <- r :: t in txns
  {
    if txns == [] then []
    else (if txns[0].cardId in cardIds && InWindow(txns[0].month, now) then [txns[0]] else [])
         + FindMany(txns[1..], cardIds, now)
  }

  ghost predicate Stored(txns: seq<Txn>) {
    forall t <- txns :: IsMonth(t.month) && Validated(MapAdjustment(t.adjustment))
  }

  lemma SumsAppend(a: seq<Txn>, b: seq<Txn>, cardId: string, now: Month)
    ensures RawOf(a + b, cardId, now) == RawOf(a, cardId, now) + RawOf(b, cardId, now)
    ensures EffectiveOf(a + b, cardId, now) == EffectiveOf(a, cardId, now) + EffectiveOf(b, cardId, now)
  {
    if a == [] {
      assert a + b == b;
    } else {
      assert (a + b)[1..] == a[1..] + b;
      SumsAppend(a[1..], b, cardId, now);
    }
  }

  lemma SumsSnoc(before: seq<Txn>, t: Txn, now: Month)
    ensures forall c :: RawOf(before + [t], c, now) == RawOf(before, c, now) + RawShare(t, c, now)
    ensures forall c :: EffectiveOf(before + [t], c, now) == EffectiveOf(before, c, now) + EffectiveShare(t, c, now)
  {
    forall c
      ensures RawOf(before + [t], c, now) == RawOf(before, c, now) + RawShare(t, c, now)
      ensures EffectiveOf(before + [t], c, now) == EffectiveOf(before, c, now) + EffectiveShare(t, c, now)
    {
      SumsAppend(before, [t], c, now);
      SumsOne(t, c, now);
    }
  }

  lemma SumsOne(t: Txn, c: string, now: Month)
    ensures RawOf([t], c, now) == RawShare(t, c, now) && EffectiveOf([t], c, now) == EffectiveShare(t, c, now)
  {
    assert [t][1..] == [];
  }

  lemma NothingSummed(now: Month)
    ensures forall c :: RawOf([], c, now) == 0.0 && EffectiveOf([], c, now) == 0.0
  {
  }

  /** What one more transaction adds to the spend of a card: nothing to another card; its amount to the raw
      figure of its own month; to the effective one what counts of it in this month. */
  lemma OneMore(before: seq<Txn>, t: Txn, cardId: string, now: Month)
    requires IsMonth(t.month) && IsMonth(now)
    ensures RawOf(before + [t], cardId, now) ==
            RawOf(before, cardId, now) + (if t.cardId == cardId && t.month == now then t.amount else 0.0)
    ensures EffectiveOf(before + [t], cardId, now) ==
            EffectiveOf(before, cardId, now)
            + (if t.cardId == cardId then EffectiveForMonth(t.amount, t.month, now, MapAdjustment(t.adjustment)) else 0.0)
  {
    hide EffectiveForMonth;
    SameMonth(t.month, now);
    SumsAppend(before, [t], cardId, now);
    SumsOne(t, cardId, now);
  }

  /** A validated transaction outside the window has no share in this month. */
  lemma OutsideCountsNothing(t: Txn, now: Month)
    requires Validated(MapAdjustment(t.adjustment)) && !InWindow(t.month, now)
    ensures EffectiveForMonth(t.amount, t.month, now, MapAdjustment(t.adjustment)) == 0.0
    ensures Index(t.month) != Index(now)
  {
  }

  /** The window is wide enough for amortisations of up to 61 months and for no longer ones. */
  lemma WindowWideEnoughIff(n: int)
    requires 2 <= n
    ensures (forall txn: Month, now: Month :: !InWindow(txn, now) ==> !Counts(txn, now, Some(Amortize(n)))) <==> n <= 61
  {
    if n > 61 {
      var txn, now := Month(0, 0), Month(5, 1);
      assert !InWindow(txn, now) && Counts(txn, now, Some(Amortize(n)));
    }
  }

  /** The pruned query is exact: for every card asked for, the sums over what it returns are the sums
      over all transactions ever. */
  lemma {:induction false} PrunedExact(txns: seq<Txn>, cardIds: seq<string>, now: Month, cardId: string)
    requires Stored(txns) && cardId in cardIds
    ensures EffectiveOf(FindMany(txns, cardIds, now), cardId, now) == EffectiveOf(txns, cardId, now)
    ensures RawOf(FindMany(txns, cardIds, now), cardId, now) == RawOf(txns, cardId, now)
  {
    if txns != [] {
      var t, rest := txns[0], FindMany(txns[1..], cardIds, now);
      assert t in txns;
      assert forall u <- txns[1..] :: u in txns;
      PrunedExact(txns[1..], cardIds, now, cardId);
      if !InWindow(t.month, now) { OutsideCountsNothing(t, now); }
      if t.cardId in cardIds && InWindow(t.month, now) {
        assert ([t] + rest)[1..] == rest;
      } else {
        assert [] + rest == rest;
      }
    }
  }

  /** One query drives the raw and the effective figure of every card. */
  method ComputeCalendarMonthByCard(txns: seq<Txn>, cardIds: seq<string>, now: Month) returns (byCard: map<string, Spend>)
    requires IsMonth(now) && Stored(txns)
    ensures byCard.Keys == set c | c in cardIds
    ensures forall c <- cardIds ::
              byCard[c] == Spend(RoundMoney(RawOf(txns, c, now)), RoundMoney(EffectiveOf(txns, c, now)))
  {
    hide RawOf, EffectiveOf, FindMany;
    NothingSummed(now);
    var transactions := FindMany(txns, cardIds, now);
    byCard := map c | c in cardIds :: Spend(0.0, 0.0);
    for i := 0 to |transactions|
      invariant byCard.Keys == set c | c in cardIds
      invariant forall c :: c in byCard ==>
                  byCard[c] == Spend(RawOf(transactions[..i], c, now), EffectiveOf(transactions[..i], c, now))
    {
      var t := transactions[i];
      assert t in transactions;
      assert transactions[..i + 1] == transactions[..i] + [t];
      var effective := EffectiveForCalendarMonth(t.amount, t.month, now, MapAdjustment(t.adjustment));
      var raw := if Index(t.month) == Index(now) then t.amount else 0.0;
      SumsSnoc(transactions[..i], t, now);
      if t.cardId in byCard {
        var entry := byCard[t.cardId];
        byCard := byCard[t.cardId := Spend(entry.raw + raw, entry.effective + effective)];
      }
    }
    assert transactions[..|transactions|] == transactions;
    forall c <- cardIds
      ensures RawOf(transactions, c, now) == RawOf(txns, c, now) && EffectiveOf(transactions, c, now) == EffectiveOf(txns, c, now)
    {
      PrunedExact(txns, cardIds, now, c);
    }
    byCard := map c | c in byCard :: Spend(RoundMoney(byCard[c].raw), RoundMoney(byCard[c].effective));
  }
}
