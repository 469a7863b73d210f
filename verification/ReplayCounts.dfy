/**
 The failure rows over a replay: a replay that returns has tried each selected failure exactly once and
 leaves none of them in the state RETRYING; every other row keeps its count.
 */
module ReplayCounts {
  import opened Wrappers
  import opened CcTxnImport
  import opened ImportHistory

  ghost predicate Settled(s: Store, row: RowKey) {
    row in s.failures && (s.failures[row].status == OPEN || s.failures[row].status == RESOLVED)
  }

  /** One try of `row`: its count goes up by one, it ends OPEN or RESOLVED, and settled rows stay settled. */
  ghost predicate Tried(a: Store, b: Store, row: RowKey) {
    && Settled(b, row)
    && forall k :: k in a.failures ==>
         && k in b.failures && b.failures[k].attempts == a.failures[k].attempts + (if k == row then 1 else 0)
         && (Settled(a, k) ==> Settled(b, k))
  }

  lemma MarkedKeptSettled(s: Store, env: Env, row: RowKey, b: Store, status: Status)
    requires row in s.failures && UpdateStatus(s, env, row, RETRYING, 1).Ok?
    requires RowsKept(UpdateStatus(s, env, row, RETRYING, 1).store, b, Some(row))
    requires status == OPEN || status == RESOLVED
    ensures UpdateStatus(b, env, row, status, 0).Ok? ==> Tried(s, UpdateStatus(b, env, row, status, 0).store, row)
  {
  }

  lemma RetryOneTries(s: Store, keys: set<string>, env: Env, item: RetryItem)
    requires item.row in s.failures
    ensures var r := RetryOne(s, keys, env, false, item).0;
            r.Ok? ==> Tried(s, r.store, item.row)
  {
    hide Process, UpdateStatus, RowsKept, Tried;
    var first := UpdateStatus(s, env, item.row, RETRYING, 1);
    if first.Ok? {
      SameFailures(first.store, first.store, first.store, Some(item.row));
      MarkedKeptSettled(s, env, item.row, first.store, OPEN);
      if item.config.Some? && item.fetch.Found? {
        var m, ctx := Message(item.row.messageId, item.fetch.receivedAt), item.config.value.(dry := false);
        var (r, _) := Process(first.store, keys, env, ctx, m, item.parse, Some(item.row));
        ProcessKeepsRows(first.store, keys, env, ctx, m, item.parse, Some(item.row));
        MarkedKeptSettled(s, env, item.row, r.store, OPEN);
        MarkedKeptSettled(s, env, item.row, r.store, RESOLVED);
      }
    }
  }

  ghost predicate Selects(items: seq<RetryItem>, row: RowKey) {
    exists item :: item in items && item.row == row
  }

  /** A replay that returns has tried each selected failure once and settled it. */
  lemma {:induction false} ReplayTriesEach(s: Store, keys: set<string>, env: Env, items: seq<RetryItem>)
    requires DistinctItems(items) && forall item <- items :: item.row in s.failures
    ensures var r := RetryAll(s, keys, env, false, items);
            r.Ok? ==>
              forall k :: k in s.failures ==>
                && k in r.store.failures
                && r.store.failures[k].attempts == s.failures[k].attempts + (if Selects(items, k) then 1 else 0)
                && (Selects(items, k) || Settled(s, k) ==> Settled(r.store, k))
    decreases |items|
  {
    hide RetryOne;
    if items != [] {
      var (r, keys1) := RetryOne(s, keys, env, false, items[0]);
      assert items[0] in items;
      RetryOneTries(s, keys, env, items[0]);
      if r.Ok? {
        ReplayTriesEach(r.store, keys1, env, items[1..]);
        forall k ensures Selects(items, k) <==> k == items[0].row || Selects(items[1..], k) {
          if Selects(items, k) && k != items[0].row {
            var item :| item in items && item.row == k;
            assert item in items[1..];
          }
          if Selects(items[1..], k) {
            var item :| item in items[1..] && item.row == k;
            assert item in items;
          }
        }
        assert !Selects(items[1..], items[0].row);
      }
    }
  }
}
