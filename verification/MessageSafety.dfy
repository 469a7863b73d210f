/**
 No message is lost, whatever replays select: a due message of a run that returned is stored, or some
 failure row of it, under whatever bank key, is not RESOLVED. A replay that holds a message under two
 bank keys can resolve one row wrongly, but then the row whose insert failed is still there.
 */
module MessageSafety {
  import opened Wrappers
  import opened CcTxnImport
  import opened ImportHistory

  ghost predicate Unresolved(s: Store, row: RowKey) {
    row in s.failures && s.failures[row].status != RESOLVED
  }

  predicate NotSelected(row: RowKey, items: seq<RetryItem>) {
    forall item <- items :: item.row != row
  }

  /** Some failure row of the message is not RESOLVED, and these items do not select it. */
  ghost predicate ListedBeside(s: Store, key: string, items: seq<RetryItem>) {
    exists row :: Unresolved(s, row) && KeyOf(row.messageId) == key && NotSelected(row, items)
  }

  ghost predicate Safe(s: Store, key: string) {
    key in s.txns || ListedBeside(s, key, [])
  }

  /** What a live replay keeps while these items are still to come. */
  ghost predicate SafeAhead(s: Store, keys: set<string>, key: string, items: seq<RetryItem>) {
    key in s.txns || (key !in keys && ListedBeside(s, key, [])) || ListedBeside(s, key, items)
  }

  // ---------------------------------------------------------------------------------------------
  // One replayed failure
  // ---------------------------------------------------------------------------------------------

  /** The row is RESOLVED only when the transaction is stored. */
  ghost predicate RowHonest(s: Store, row: RowKey, key: string) {
    Unresolved(s, row) || key in s.txns
  }

  lemma UpsertHonest(s: Store, env: Env, other: RowKey, t: FailureType, row: RowKey, key: string)
    requires RowHonest(s, row, key)
    ensures RowHonest(UpsertFailure(s, env, other, t).store, row, key)
  {
  }

  lemma ResolveHonest(s: Store, env: Env, row: RowKey, key: string)
    requires key in s.txns
    ensures RowHonest(UpdateStatus(s, env, row, RESOLVED, 0).store, row, key)
  {
  }

  lemma AfterStoreHonest(w: R<Kind>, env: Env, other: RowKey, row: RowKey, key: string)
    requires RowHonest(w.store, row, key) && (w.Ok? && IsResolved(w.value) ==> key in w.store.txns)
    requires w.Ok? ==> !w.value.ParseMiss? && !w.value.ParseError?
    ensures RowHonest(AfterStore(w, env, other, Some(row)).store, row, key)
  {
    hide UpsertFailure, UpdateStatus, RowHonest;
    UpsertHonest(w.store, env, other, CARD_NOT_FOUND, row, key);
    UpsertHonest(w.store, env, other, WRITE_FAILED, row, key);
    if w.Ok? && IsResolved(w.value) { ResolveHonest(w.store, env, row, key); }
  }

  lemma StoreHonest(s: Store, b: Store, row: RowKey, key: string)
    requires RowHonest(s, row, key) && s.failures == b.failures && Persists(s, b)
    ensures RowHonest(b, row, key)
  {
    if key in s.txns { StoredStays(s.txns, b.txns, key); }
  }

  lemma AttemptHonest(s: Store, keys: set<string>, env: Env, ctx: Ctx, m: Message, parse: Parse, row: RowKey)
    requires RowHonest(s, row, Key(m)) && Key(m) !in keys
    ensures var (r, _) := Attempt(s, keys, env, ctx, m, parse, Some(row));
            RowHonest(r.store, row, Key(m)) && (r.Ok? && IsResolved(r.value) && !ctx.dry ==> Key(m) in r.store.txns)
  {
    hide UpsertFailure, AfterStore, StoreTxn, Key, RowHonest;
    var other := RowKey(ctx.bank, m.id);
    UpsertHonest(s, env, other, PARSE_MISS, row, Key(m));
    UpsertHonest(s, env, other, CARD_NOT_FOUND, row, Key(m));
    if parse.Parsed? {
      var w := StoreTxn(s, env, Key(m), parse.last4 in ctx.stored, ctx.unique);
      StoreTxnGrows(s, env, Key(m), parse.last4 in ctx.stored, ctx.unique);
      StoreHonest(s, w.store, row, Key(m));
      AfterStoreHonest(w, env, other, row, Key(m));
      AfterStoreGrows(w, env, other, Some(row));
      AfterStoreKind(w, env, other, Some(row));
    }
  }

  lemma AfterStoreKind(w: R<Kind>, env: Env, row: RowKey, retry: Option<RowKey>)
    requires w.Ok? ==> !w.value.ParseMiss? && !w.value.ParseError?
    ensures var a := AfterStore(w, env, row, retry); a.Ok? && IsResolved(a.value) ==> w.Ok? && IsResolved(w.value)
  {
    hide UpsertFailure, UpdateStatus;
  }

  /** A message whose key the replay has not seen: its row is resolved only with the transaction stored. */
  lemma ProcessHonest(s: Store, keys: set<string>, env: Env, ctx: Ctx, m: Message, parse: Parse, row: RowKey)
    requires RowHonest(s, row, Key(m)) && Key(m) !in keys
    ensures var (r, _) := Process(s, keys, env, ctx, m, parse, Some(row));
            RowHonest(r.store, row, Key(m)) && (r.Ok? && IsResolved(r.value) && !ctx.dry ==> Key(m) in r.store.txns)
  {
    hide UpsertFailure, Attempt, Key, RowHonest;
    AttemptHonest(s, keys, env, ctx, m, parse, row);
    var (r, _) := Attempt(s, keys, env, ctx, m, parse, Some(row));
    UpsertHonest(r.store, env, RowKey(ctx.bank, m.id), PARSE_ERROR, row, Key(m));
  }

  /** Every other unresolved row stays so. */
  ghost predicate OthersKept(a: Store, b: Store, row: RowKey) {
    forall other :: other != row && Unresolved(a, other) ==> Unresolved(b, other)
  }

  lemma ProcessOthers(s: Store, keys: set<string>, env: Env, ctx: Ctx, m: Message, parse: Parse, row: RowKey)
    ensures OthersKept(s, Process(s, keys, env, ctx, m, parse, Some(row)).0.store, row)
  {
    hide Process;
    ProcessKeepsRows(s, keys, env, ctx, m, parse, Some(row));
  }

  lemma MarkOthers(s: Store, env: Env, row: RowKey, status: Status, extra: nat, key: string)
    ensures var r := UpdateStatus(s, env, row, status, extra);
            && OthersKept(s, r.store, row) && r.store.txns == s.txns
            && (r.Ok? && status != RESOLVED ==> Unresolved(r.store, row))
            && (RowHonest(s, row, key) && (status == RESOLVED ==> key in s.txns) ==> RowHonest(r.store, row, key))
  {
  }

  lemma OthersTransitive(a: Store, b: Store, c: Store, row: RowKey)
    requires OthersKept(a, b, row) && OthersKept(b, c, row)
    ensures OthersKept(a, c, row)
  {
  }

  lemma RetryOneEffect(s: Store, keys: set<string>, env: Env, item: RetryItem)
    ensures var (r, _) := RetryOne(s, keys, env, false, item);
            var key := KeyOf(item.row.messageId);
            && OthersKept(s, r.store, item.row)
            && (key !in keys && (r.Ok? || RowHonest(s, item.row, key)) ==> RowHonest(r.store, item.row, key))
  {
    hide Process, UpdateStatus, KeyOf, OthersKept, RowHonest, Unresolved;
    var key, row := KeyOf(item.row.messageId), item.row;
    MarkOthers(s, env, row, RETRYING, 1, key);
    var first := UpdateStatus(s, env, row, RETRYING, 1);
    if first.Ok? {
      var s1 := first.store;
      UnresolvedHonest(s1, row, key);
      MarkOthers(s1, env, row, OPEN, 0, key);
      OthersTransitive(s, s1, UpdateStatus(s1, env, row, OPEN, 0).store, row);
      if item.config.Some? && item.fetch.Found? {
        var m, ctx := Message(row.messageId, item.fetch.receivedAt), item.config.value.(dry := false);
        var (r, _) := Process(s1, keys, env, ctx, m, item.parse, Some(row));
        ProcessOthers(s1, keys, env, ctx, m, item.parse, row);
        OthersTransitive(s, s1, r.store, row);
        if key !in keys { ProcessHonest(s1, keys, env, ctx, m, item.parse, row); }
        if r.Ok? {
          var status := if IsResolved(r.value) then RESOLVED else OPEN;
          MarkOthers(r.store, env, row, status, 0, key);
          OthersTransitive(s, r.store, UpdateStatus(r.store, env, row, status, 0).store, row);
        }
      }
    }
  }

  lemma UnresolvedHonest(s: Store, row: RowKey, key: string)
    ensures Unresolved(s, row) ==> RowHonest(s, row, key)
  {
  }

  // ---------------------------------------------------------------------------------------------
  // A replay
  // ---------------------------------------------------------------------------------------------

  lemma ListedKept(a: Store, b: Store, row: RowKey, key: string, items: seq<RetryItem>, fewer: seq<RetryItem>)
    requires ListedBeside(a, key, items) && OthersKept(a, b, row) && forall item <- fewer :: item in items
    requires !NotSelected(row, items) || KeyOf(row.messageId) != key
    ensures ListedBeside(b, key, fewer)
  {
    var other :| Unresolved(a, other) && KeyOf(other.messageId) == key && NotSelected(other, items);
    assert Unresolved(b, other) && NotSelected(other, fewer);
  }

  /** One step of a replay, when it goes on to the rest and when it ends there. */
  lemma RetryOneSafe(s: Store, keys: set<string>, env: Env, items: seq<RetryItem>, key: string)
    requires items != [] && DistinctItems(items) && SafeAhead(s, keys, key, items)
    ensures var (r, keys1) := RetryOne(s, keys, env, false, items[0]);
            if r.Ok? then SafeAhead(r.store, keys1, key, items[1..]) else Safe(r.store, key)
  {
    hide RetryOne, KeyOf, OthersKept, Unresolved;
    var item, rest := items[0], items[1..];
    var (r, keys1) := RetryOne(s, keys, env, false, item);
    assert item in items;
    RetryOnePersists(s, keys, env, false, item);
    RetryOneEffect(s, keys, env, item);
    assert forall x <- rest :: x in items;
    assert NotSelected(item.row, rest) by {
      assert forall k :: 0 <= k < |rest| ==> rest[k] == items[k + 1];
    }
    if key in s.txns {
      StoredStays(s.txns, r.store.txns, key);
    } else if ListedBeside(s, key, items) {
      ListedKept(s, r.store, item.row, key, items, rest);
      ListedKept(s, r.store, item.row, key, items, []);
    } else if KeyOf(item.row.messageId) != key {
      ListedKept(s, r.store, item.row, key, [], []);
    } else {
      FirstOfMessage(s, r, item.row, key, rest);
    }
  }

  lemma FirstOfMessage(s: Store, r: R<()>, row: RowKey, key: string, rest: seq<RetryItem>)
    requires ListedBeside(s, key, []) && KeyOf(row.messageId) == key && NotSelected(row, rest)
    requires OthersKept(s, r.store, row) && (r.Ok? || RowHonest(s, row, key) ==> RowHonest(r.store, row, key))
    ensures r.Ok? ==> key in r.store.txns || ListedBeside(r.store, key, rest)
    ensures Safe(r.store, key)
  {
    hide KeyOf;
    assert NotSelected(row, []);
    if Unresolved(r.store, row) {
      assert ListedBeside(r.store, key, []);
    } else if key !in r.store.txns {
      var other :| Unresolved(s, other) && KeyOf(other.messageId) == key && NotSelected(other, []);
      assert other != row && Unresolved(r.store, other);
    }
  }

  lemma {:induction false} LiveReplaySafe(s: Store, keys: set<string>, env: Env, items: seq<RetryItem>, key: string)
    requires DistinctItems(items) && SafeAhead(s, keys, key, items)
    ensures Safe(RetryAll(s, keys, env, false, items).store, key)
    decreases |items|
  {
    hide RetryOne, KeyOf, Unresolved;
    if items != [] {
      var (r, keys1) := RetryOne(s, keys, env, false, items[0]);
      RetryOneSafe(s, keys, env, items, key);
      if r.Ok? { LiveReplaySafe(r.store, keys1, env, items[1..], key); }
    }
  }

  lemma SafeKept(a: Store, b: Store, key: string)
    requires Safe(a, key) && Persists(a, b) && RowsKept(a, b, None)
    ensures Safe(b, key)
  {
    hide KeyOf;
    if key in a.txns {
      StoredStays(a.txns, b.txns, key);
    } else {
      var row :| Unresolved(a, row) && KeyOf(row.messageId) == key && NotSelected(row, []);
      assert Unresolved(b, row);
    }
  }

  lemma DryOne(s: Store, keys: set<string>, env: Env, item: RetryItem)
    ensures RowsKept(s, RetryOne(s, keys, env, true, item).0.store, None)
  {
    hide RowsKept, UpsertFailure, StoreTxn, AfterStore;
    SameFailures(s, s, s, None);
    if item.config.Some? && item.fetch.Found? {
      var m, ctx := Message(item.row.messageId, item.fetch.receivedAt), item.config.value.(dry := true);
      ProcessKeepsRows(s, keys, env, ctx, m, item.parse, None);
      assert Process(s, keys, env, ctx, m, item.parse, Some(item.row)) == Process(s, keys, env, ctx, m, item.parse, None);
    }
  }

  lemma {:induction false} DryReplaySafe(s: Store, keys: set<string>, env: Env, items: seq<RetryItem>, key: string)
    requires Safe(s, key)
    ensures Safe(RetryAll(s, keys, env, true, items).store, key)
    decreases |items|
  {
    hide RetryOne, Safe, RowsKept;
    if items != [] {
      var (r, keys1) := RetryOne(s, keys, env, true, items[0]);
      DryOne(s, keys, env, items[0]);
      RetryOnePersists(s, keys, env, true, items[0]);
      SafeKept(s, r.store, key);
      if r.Ok? { DryReplaySafe(r.store, keys1, env, items[1..], key); }
    }
  }

  lemma SafeFrame(a: Store, b: Store, key: string)
    requires a.txns == b.txns && a.failures == b.failures
    ensures Safe(a, key) == Safe(b, key)
  {
    hide KeyOf;
    if ListedBeside(a, key, []) {
      var row :| Unresolved(a, row) && KeyOf(row.messageId) == key && NotSelected(row, []);
      assert Unresolved(b, row);
    }
    if ListedBeside(b, key, []) {
      var row :| Unresolved(b, row) && KeyOf(row.messageId) == key && NotSelected(row, []);
      assert Unresolved(a, row);
    }
  }

  lemma LoadedIsStored(s: Store, key: string, items: seq<RetryItem>)
    requires Safe(s, key)
    ensures SafeAhead(s, Newest(s.txns, EXISTING_KEYS_LIMIT), key, items)
  {
    hide KeyOf;
  }

  /** A replay keeps every message safe, whichever rows it selects. */
  lemma ReplaySafe(s: Store, env: Env, dry: bool, items: seq<RetryItem>, key: string)
    requires DistinctItems(items) && Safe(s, key)
    ensures Safe(Retry(s, env, dry, items).store, key)
  {
    hide RetryAll, Safe, SafeAhead, DistinctItems, Newest;
    var r1 := Read(s, env);
    SafeFrame(s, r1.store, key);
    if r1.Ok? {
      var r2 := Read(r1.store, env);
      SafeFrame(s, r2.store, key);
      if r2.Ok? {
        var r3 := Read(r2.store, env);
        SafeFrame(s, r3.store, key);
        if r3.Ok? {
          var keys := Newest(r3.store.txns, EXISTING_KEYS_LIMIT);
          if dry {
            DryReplaySafe(r3.store, keys, env, items, key);
          } else {
            LoadedIsStored(r3.store, key, items);
            LiveReplaySafe(r3.store, keys, env, items, key);
          }
        }
      }
    }
  }

  // ---------------------------------------------------------------------------------------------
  // Histories
  // ---------------------------------------------------------------------------------------------

  lemma ImportSafe(s: Store, env: Env, folder: Folder, ctx: Ctx, polled: Option<seq<Message>>, size: nat, parser: Parser, key: string)
    requires 0 < size && Safe(s, key)
    ensures Safe(RunFolder(s, env, folder, ctx, polled, size, parser).store, key)
  {
    hide Drain, Items, Finish, RunFolder, BeforeWatermark, Due, MaxReceived, Newest, Safe, RowsKept;
    var after := RunFolder(s, env, folder, ctx, polled, size, parser).store;
    if polled.None? {
      FailedPoll(s, env, folder, ctx, size, parser);
      SafeFrame(s, after, key);
    } else {
      var start := FolderParts(s, env, folder, ctx, polled.value, size, parser);
      var keys, items := Newest(s.txns, EXISTING_KEYS_LIMIT), Items(Due(s, folder, polled.value), size, parser);
      var b := BeforeWatermark(s, env, folder, ctx, polled.value, size, parser);
      RunIsFinish(s, env, folder, ctx, polled.value, size, parser);
      FinishEffect(b, env, folder, ctx.dry, MaxReceived(Due(s, folder, polled.value)));
      SafeFrame(s, start, key);
      DrainGrows(start, keys, env, ctx, items, NO_STATS);
      DrainKeepsRows(start, keys, env, ctx, items, NO_STATS);
      SafeKept(start, Drain(start, keys, env, ctx, items, NO_STATS).store, key);
      if b != Drain(start, keys, env, ctx, items, NO_STATS) { SafeFrame(s, b.store, key); }
      SafeFrame(b.store, after, key);
    }
  }

  lemma IgnoreOne(s: Store, env: Env, row: RowKey, key: string)
    requires Safe(s, key)
    ensures Safe(UpdateStatus(s, env, row, IGNORED, 0).store, key)
  {
    hide KeyOf;
    if key !in s.txns {
      var other :| Unresolved(s, other) && KeyOf(other.messageId) == key && NotSelected(other, []);
      assert Unresolved(UpdateStatus(s, env, row, IGNORED, 0).store, other);
    }
  }

  lemma {:induction false} IgnoreSafe(s: Store, env: Env, rows: seq<RowKey>, key: string)
    requires Safe(s, key)
    ensures Safe(IgnoreAll(s, env, rows).store, key)
    decreases |rows|
  {
    hide UpdateStatus, Safe;
    if rows != [] {
      var r := UpdateStatus(s, env, rows[0], IGNORED, 0);
      IgnoreOne(s, env, rows[0], key);
      if r.Ok? { IgnoreSafe(r.store, env, rows[1..], key); }
    }
  }

  ghost predicate SelectsRows(job: Job) {
    job.Replay? ==> DistinctItems(job.items)
  }

  lemma JobSafe(s: Store, env: Env, job: Job, key: string)
    requires SelectsRows(job) && Safe(s, key)
    ensures Safe(RunJob(s, env, job), key)
  {
    hide RunFolder, Retry, IgnoreAll, Safe, DistinctItems;
    match job
    case Import(folder, ctx, polled, size, parser) =>
      if size != 0 { ImportSafe(s, env, folder, ctx, polled, size, parser, key); }
    case Replay(dry, items) => ReplaySafe(s, env, dry, items, key);
    case Ignore(rows) =>
      var r := Read(s, env);
      SafeFrame(s, r.store, key);
      IgnoreSafe(r.store, env, rows, key);
  }

  lemma {:induction false} HistorySafe(s: Store, env: Env, jobs: seq<Job>, key: string)
    requires Safe(s, key) && forall job <- jobs :: SelectsRows(job)
    ensures Safe(RunJobs(s, env, jobs), key)
    decreases |jobs|
  {
    hide RunJob, Safe, SelectsRows;
    if jobs != [] {
      assert jobs[0] in jobs;
      JobSafe(s, env, jobs[0], key);
      HistorySafe(RunJob(s, env, jobs[0]), env, jobs[1..], key);
    }
  }

  lemma AccountedIsSafe(s: Store, bank: string, m: Message)
    requires Accounted(s, bank, m)
    ensures Safe(s, Key(m))
  {
    if Key(m) !in s.txns {
      assert Unresolved(s, RowKey(bank, m.id)) && NotSelected(RowKey(bank, m.id), []);
    }
  }

  /** No message is lost: once a live run has moved the watermark past its due messages, or returned,
      every one of them is for ever after stored, or some failure row of it is not RESOLVED. This is over
      any later history of serial jobs, from any tables, whatever messages replays select. */
  lemma NeverLost(s: Store, env: Env, folder: Folder, ctx: Ctx, polled: seq<Message>, size: nat, parser: Parser,
                  later: seq<Job>, m: Message)
    requires 0 < size && ctx.bank == folder.bank && !ctx.dry && TrimApart(polled)
    requires m in Due(s, folder, polled) && forall job <- later :: SelectsRows(job)
    ensures var r := RunFolder(s, env, folder, ctx, Some(polled), size, parser);
            r.Ok? || r.store.watermarks != s.watermarks ==> Safe(RunJobs(r.store, env, later), Key(m))
  {
    hide RunFolder, RunJobs, Due, SelectsRows, TrimApart, Cutoff, MaxReceived, Safe, Accounted;
    var r := RunFolder(s, env, folder, ctx, Some(polled), size, parser);
    WatermarkSafe(s, env, folder, ctx, polled, size, parser);
    if r.Ok? || r.store.watermarks != s.watermarks {
      AccountedIsSafe(r.store, folder.bank, m);
      HistorySafe(r.store, env, later, Key(m));
    }
  }
}
