/**
 Whole histories of imports, replays and ignores, with crashes anywhere: nothing is stored twice, a
 resolved failure is a stored transaction, and a message once accounted for is never lost.
 */
module ImportHistory {
  import opened Wrappers
  import opened CcTxnImport

  /** What Gmail answers for the message of a failure row. */
  datatype Fetch = Missing | FetchThrows | Found(receivedAt: int)

  /** One selected failure: the folder its bank key stands for (None when unknown), the fetch, the parse. */
  datatype RetryItem = RetryItem(row: RowKey, config: Option<Ctx>, fetch: Fetch, parse: Parse)

  function MarkUnlessDry(s: Store, env: Env, dry: bool, row: RowKey, status: Status, extra: nat): R<()> {
    if dry then Ok((), s) else UpdateStatus(s, env, row, status, extra)
  }

  function IsResolved(kind: Kind): bool {
    kind.Inserted? || kind.Duplicate?
  }

  /** A query selects each failure row once. */
  ghost predicate DistinctItems(items: seq<RetryItem>) {
    forall i, j :: 0 <= i < j < |items| ==> items[i].row != items[j].row
  }

  function RetryOne(s: Store, keys: set<string>, env: Env, dry: bool, item: RetryItem): (R<()>, set<string>) {
    match MarkUnlessDry(s, env, dry, item.row, RETRYING, 1)
    case Threw(s1) => (Threw(s1), keys)
    case Died(s1) => (Died(s1), keys)
    case Ok(_, s1) =>
      if item.config.None? || item.fetch.Missing? then (MarkUnlessDry(s1, env, dry, item.row, OPEN, 0), keys)
      else if item.fetch.FetchThrows? then (Threw(s1), keys)
      else
        var m := Message(item.row.messageId, item.fetch.receivedAt);
        var (r, keys1) := Process(s1, keys, env, item.config.value.(dry := dry), m, item.parse, Some(item.row));
        match r
        case Threw(s2) => (Threw(s2), keys1)
        case Died(s2) => (Died(s2), keys1)
        case Ok(kind, s2) => (MarkUnlessDry(s2, env, dry, item.row, if IsResolved(kind) then RESOLVED else OPEN, 0), keys1)
  }

  function RetryAll(s: Store, keys: set<string>, env: Env, dry: bool, items: seq<RetryItem>): R<()>
    decreases |items|
  {
    if items == [] then Ok((), s)
    else
      var (r, keys1) := RetryOne(s, keys, env, dry, items[0]);
      if r.Ok? then RetryAll(r.store, keys1, env, dry, items[1..]) else r
  }

  /** retryFailures over the rows its query selected; the reads of rows, keys and cards come first. */
  function Retry(s: Store, env: Env, dry: bool, items: seq<RetryItem>): R<()> {
    match Read(s, env)
    case Threw(s1) => Threw(s1)
    case Died(s1) => Died(s1)
    case Ok(_, s1) =>
      match Read(s1, env)
      case Threw(s2) => Threw(s2)
      case Died(s2) => Died(s2)
      case Ok(_, s2) =>
        match Read(s2, env)
        case Threw(s3) => Threw(s3)
        case Died(s3) => Died(s3)
        case Ok(_, s3) => RetryAll(s3, Newest(s3.txns, EXISTING_KEYS_LIMIT), env, dry, items)
  }

  function IgnoreAll(s: Store, env: Env, rows: seq<RowKey>): R<()>
    decreases |rows|
  {
    if rows == [] then Ok((), s)
    else
      var r := UpdateStatus(s, env, rows[0], IGNORED, 0);
      if r.Ok? then IgnoreAll(r.store, env, rows[1..]) else r
  }

  /** ignoreFailures over the rows its query selected. */
  function IgnoreFailures(s: Store, env: Env, rows: seq<RowKey>): R<()> {
    match Read(s, env)
    case Threw(s1) => Threw(s1)
    case Died(s1) => Died(s1)
    case Ok(_, s1) => IgnoreAll(s1, env, rows)
  }

  datatype Job =
    | Import(folder: Folder, ctx: Ctx, polled: Option<seq<Message>>, size: nat, parser: Parser)
    | Replay(dry: bool, items: seq<RetryItem>)
    | Ignore(rows: seq<RowKey>)

  predicate AtMostOnce(items: seq<RetryItem>, key: string) {
    forall i, j :: 0 <= i < j < |items| && KeyOf(items[i].row.messageId) == key ==> KeyOf(items[j].row.messageId) != key
  }

  /** A replay selects the message of this key at most once. */
  ghost predicate Single(job: Job, key: string) {
    job.Replay? ==> AtMostOnce(job.items, key)
  }

  ghost predicate Constrained(job: Job) {
    match job
    case Import(_, ctx, _, _, _) => ctx.unique
    case Replay(_, items) => forall item <- items :: item.config.Some? ==> item.config.value.unique
    case Ignore(_) => true
  }

  function RunJob(s: Store, env: Env, job: Job): Store {
    match job
    case Import(folder, ctx, polled, size, parser) =>
      if size == 0 then s else RunFolder(s, env, folder, ctx, polled, size, parser).store
    case Replay(dry, items) => Retry(s, env, dry, items).store
    case Ignore(rows) => IgnoreFailures(s, env, rows).store
  }

  function RunJobs(s: Store, env: Env, jobs: seq<Job>): Store
    decreases |jobs|
  {
    if jobs == [] then s else RunJobs(RunJob(s, env, jobs[0]), env, jobs[1..])
  }

  // ---------------------------------------------------------------------------------------------
  // The invariants
  // ---------------------------------------------------------------------------------------------

  ghost predicate StoredOnce(s: Store) {
    forall i, j :: 0 <= i < j < |s.txns| ==> s.txns[i] != s.txns[j]
  }

  /** A failure of the message of this key that is marked RESOLVED has its transaction stored. */
  ghost predicate ResolvedFor(s: Store, key: string) {
    forall row :: row in s.failures && s.failures[row].status == RESOLVED && KeyOf(row.messageId) == key ==> key in s.txns
  }

  /** Nothing is forgotten: transactions and failure rows only accumulate. */
  ghost predicate Persists(a: Store, b: Store) {
    && |a.txns| <= |b.txns| && a.txns == b.txns[..|a.txns|]
    && a.failures.Keys <= b.failures.Keys
  }

  /** Seen keys cover the stored ones, or the database refuses a second row itself. */
  ghost predicate Guarded(s: Store, keys: set<string>, unique: bool) {
    unique || forall k <- s.txns :: k in keys
  }

  /** The invariants read the two tables only. */
  lemma SameTables(s: Store, a: Store, b: Store, key: string)
    requires a.txns == b.txns && a.failures == b.failures
    ensures Persists(s, a) == Persists(s, b) && Persists(a, s) == Persists(b, s) && Persists(a, b)
    ensures ResolvedFor(a, key) == ResolvedFor(b, key) && StoredOnce(a) == StoredOnce(b)
  {
  }

  lemma UpsertResolved(s: Store, env: Env, row: RowKey, t: FailureType, key: string)
    requires ResolvedFor(s, key)
    ensures ResolvedFor(UpsertFailure(s, env, row, t).store, key)
  {
    hide KeyOf;
  }

  lemma UpdateResolved(s: Store, env: Env, row: RowKey, status: Status, extra: nat, key: string)
    requires ResolvedFor(s, key) && (status == RESOLVED && KeyOf(row.messageId) == key ==> key in s.txns)
    ensures ResolvedFor(UpdateStatus(s, env, row, status, extra).store, key)
  {
    hide KeyOf;
  }

  lemma AfterStoreResolved(w: R<Kind>, env: Env, row: RowKey, retry: Option<RowKey>, key: string)
    requires ResolvedFor(w.store, key)
    requires retry.Some? && KeyOf(retry.value.messageId) == key && w.Ok? && IsResolved(w.value) ==> key in w.store.txns
    requires w.Ok? ==> !w.value.ParseMiss? && !w.value.ParseError?
    ensures ResolvedFor(AfterStore(w, env, row, retry).store, key)
    ensures AfterStore(w, env, row, retry).Ok? && IsResolved(AfterStore(w, env, row, retry).value) ==> w.Ok? && IsResolved(w.value)
  {
    hide UpsertFailure, UpdateStatus, KeyOf, ResolvedFor;
    UpsertResolved(w.store, env, row, CARD_NOT_FOUND, key);
    UpsertResolved(w.store, env, row, WRITE_FAILED, key);
    if retry.Some? && w.Ok? && IsResolved(w.value) {
      UpdateResolved(w.store, env, retry.value, RESOLVED, 0, key);
    }
  }

  /** More stored transactions do no harm. */
  lemma MoreStored(a: Store, b: Store, key: string)
    requires ResolvedFor(a, key) && a.failures == b.failures && Persists(a, b)
    ensures ResolvedFor(b, key)
  {
    hide KeyOf;
    if key in a.txns { StoredStays(a.txns, b.txns, key); }
  }

  /** What is asked of the keys seen so far, for the one message that may be marked RESOLVED. */
  ghost predicate Honest(s: Store, keys: set<string>, messageId: string, retry: Option<RowKey>, key: string) {
    retry.Some? && KeyOf(messageId) == key ==> retry.value.messageId == messageId && (key in keys ==> key in s.txns)
  }

  lemma AttemptResolved(s: Store, keys: set<string>, env: Env, ctx: Ctx, m: Message, parse: Parse, retry: Option<RowKey>, key: string)
    requires ResolvedFor(s, key) && Honest(s, keys, m.id, retry, key)
    requires retry.Some? ==> retry.value.messageId == m.id
    ensures var (r, _) := Attempt(s, keys, env, ctx, m, parse, retry);
            && ResolvedFor(r.store, key)
            && (r.Ok? && IsResolved(r.value) && !ctx.dry && Key(m) == key && retry.Some? ==> key in r.store.txns)
  {
    hide UpsertFailure, AfterStore, StoreTxn, KeyOf, ResolvedFor;
    var row := RowKey(ctx.bank, m.id);
    UpsertResolved(s, env, row, PARSE_MISS, key);
    UpsertResolved(s, env, row, CARD_NOT_FOUND, key);
    if parse.Parsed? && parse.last4 in ctx.matched && Key(m) !in keys && !ctx.dry {
      var w := StoreTxn(s, env, Key(m), parse.last4 in ctx.stored, ctx.unique);
      StoreTxnGrows(s, env, Key(m), parse.last4 in ctx.stored, ctx.unique);
      MoreStored(s, w.store, key);
      AfterStoreResolved(w, env, row, retry, key);
      AfterStoreGrows(w, env, row, retry);
    }
  }

  lemma ProcessResolved(s: Store, keys: set<string>, env: Env, ctx: Ctx, m: Message, parse: Parse, retry: Option<RowKey>, key: string)
    requires ResolvedFor(s, key) && Honest(s, keys, m.id, retry, key)
    requires retry.Some? ==> retry.value.messageId == m.id
    ensures var (r, _) := Process(s, keys, env, ctx, m, parse, retry);
            && ResolvedFor(r.store, key)
            && (r.Ok? && IsResolved(r.value) && !ctx.dry && Key(m) == key && retry.Some? ==> key in r.store.txns)
  {
    hide UpsertFailure, Attempt, ResolvedFor, Honest, KeyOf;
    AttemptResolved(s, keys, env, ctx, m, parse, retry, key);
    var (r, _) := Attempt(s, keys, env, ctx, m, parse, retry);
    UpsertResolved(r.store, env, RowKey(ctx.bank, m.id), PARSE_ERROR, key);
  }

  /** One processed message stores its key at most once. */
  lemma ProcessOnce(s: Store, keys: set<string>, env: Env, ctx: Ctx, m: Message, parse: Parse, retry: Option<RowKey>, unique: bool)
    requires StoredOnce(s) && Guarded(s, keys, unique) && (unique ==> ctx.unique)
    ensures var (r, keys1) := Process(s, keys, env, ctx, m, parse, retry);
            StoredOnce(r.store) && Guarded(r.store, keys1, unique)
  {
    hide Process;
    ProcessGrows(s, keys, env, ctx, m, parse, retry);
    var (r, keys1) := Process(s, keys, env, ctx, m, parse, retry);
    if r.store.txns != s.txns {
      assert Key(m) !in s.txns;
      assert forall i :: 0 <= i < |s.txns| ==> s.txns[i] in s.txns;
    }
  }

  // ---------------------------------------------------------------------------------------------
  // Imports
  // ---------------------------------------------------------------------------------------------

  lemma {:induction false} DrainOnce(s: Store, keys: set<string>, env: Env, ctx: Ctx, items: seq<(Message, Parse)>, st: Stats)
    requires StoredOnce(s) && Guarded(s, keys, ctx.unique)
    ensures StoredOnce(Drain(s, keys, env, ctx, items, st).store)
    decreases |items|
  {
    hide Process;
    if items != [] {
      var (r, keys1) := Process(s, keys, env, ctx, items[0].0, items[0].1, None);
      ProcessOnce(s, keys, env, ctx, items[0].0, items[0].1, None, ctx.unique);
      if r.Ok? { DrainOnce(r.store, keys1, env, ctx, items[1..], Count(st, r.value)); }
    }
  }

  lemma {:induction false} DrainResolved(s: Store, keys: set<string>, env: Env, ctx: Ctx, items: seq<(Message, Parse)>, st: Stats,
                                         key: string)
    requires ResolvedFor(s, key)
    ensures ResolvedFor(Drain(s, keys, env, ctx, items, st).store, key)
    decreases |items|
  {
    hide Process, ResolvedFor;
    if items != [] {
      var (r, keys1) := Process(s, keys, env, ctx, items[0].0, items[0].1, None);
      ProcessResolved(s, keys, env, ctx, items[0].0, items[0].1, None, key);
      if r.Ok? { DrainResolved(r.store, keys1, env, ctx, items[1..], Count(st, r.value), key); }
    }
  }

  lemma FailedPoll(s: Store, env: Env, folder: Folder, ctx: Ctx, size: nat, parser: Parser)
    requires 0 < size
    ensures var after := RunFolder(s, env, folder, ctx, None, size, parser).store;
            after.txns == s.txns && after.failures == s.failures && after.watermarks == s.watermarks
  {
    WindowKeeps(s, env, folder);
  }

  lemma DrainKeeps(s: Store, env: Env, ctx: Ctx, items: seq<(Message, Parse)>, key: string)
    ensures var after := Drain(s, Newest(s.txns, EXISTING_KEYS_LIMIT), env, ctx, items, NO_STATS).store;
            && Persists(s, after)
            && (ResolvedFor(s, key) ==> ResolvedFor(after, key))
            && (StoredOnce(s) && (ctx.unique || |s.txns| <= EXISTING_KEYS_LIMIT) ==> StoredOnce(after))
  {
    hide Drain, ResolvedFor, StoredOnce;
    var keys := Newest(s.txns, EXISTING_KEYS_LIMIT);
    DrainGrows(s, keys, env, ctx, items, NO_STATS);
    if ResolvedFor(s, key) { DrainResolved(s, keys, env, ctx, items, NO_STATS, key); }
    if StoredOnce(s) && (ctx.unique || |s.txns| <= EXISTING_KEYS_LIMIT) {
      DrainOnce(s, keys, env, ctx, items, NO_STATS);
    }
  }

  /** Whatever was polled, the same mail twice included. */
  lemma ImportKeeps(s: Store, env: Env, folder: Folder, ctx: Ctx, polled: Option<seq<Message>>, size: nat, parser: Parser, key: string)
    requires 0 < size
    ensures var after := RunFolder(s, env, folder, ctx, polled, size, parser).store;
            && Persists(s, after)
            && (ResolvedFor(s, key) ==> ResolvedFor(after, key))
            && (StoredOnce(s) && (ctx.unique || |s.txns| <= EXISTING_KEYS_LIMIT) ==> StoredOnce(after))
  {
    hide Drain, Items, Finish, RunFolder, BeforeWatermark, Due, MaxReceived, Newest, Persists, ResolvedFor, StoredOnce;
    var after := RunFolder(s, env, folder, ctx, polled, size, parser).store;
    if polled.None? {
      FailedPoll(s, env, folder, ctx, size, parser);
      SameTables(s, s, after, key);
    } else {
      var start := FolderParts(s, env, folder, ctx, polled.value, size, parser);
      var due := Due(s, folder, polled.value);
      DrainKeeps(start, env, ctx, Items(due, size, parser), key);
      var b := BeforeWatermark(s, env, folder, ctx, polled.value, size, parser);
      RunIsFinish(s, env, folder, ctx, polled.value, size, parser);
      FinishEffect(b, env, folder, ctx.dry, MaxReceived(due));
      SameTables(b.store, start, s, key);
      SameTables(s, b.store, after, key);
      SameTables(s, s, s, key);
      if b.store.txns == s.txns && b.store.failures == s.failures { SameTables(s, s, b.store, key); }
    }
  }

  // ---------------------------------------------------------------------------------------------
  // Replays
  // ---------------------------------------------------------------------------------------------

  lemma MarkKeeps(s: Store, env: Env, dry: bool, row: RowKey, status: Status, extra: nat, key: string)
    ensures var after := MarkUnlessDry(s, env, dry, row, status, extra).store;
            && after.txns == s.txns && Persists(s, after)
            && (ResolvedFor(s, key) && (status == RESOLVED && !dry && KeyOf(row.messageId) == key ==> key in s.txns) ==>
                  ResolvedFor(after, key))
  {
    hide ResolvedFor, KeyOf, UpdateStatus;
    UpdateStatusGrows(s, env, row, status, extra);
    if ResolvedFor(s, key) && (status == RESOLVED && !dry && KeyOf(row.messageId) == key ==> key in s.txns) && !dry {
      UpdateResolved(s, env, row, status, extra, key);
    }
  }

  lemma PersistsTransitive(a: Store, b: Store, c: Store)
    requires Persists(a, b) && Persists(b, c)
    ensures Persists(a, c)
  {
    assert a.txns == c.txns[..|a.txns|];
  }

  lemma RetryOnePersists(s: Store, keys: set<string>, env: Env, dry: bool, item: RetryItem)
    ensures var (r, keys1) := RetryOne(s, keys, env, dry, item);
            Persists(s, r.store) && keys <= keys1 <= keys + {KeyOf(item.row.messageId)}
  {
    hide Process, MarkUnlessDry, ResolvedFor;
    MarkKeeps(s, env, dry, item.row, RETRYING, 1, "");
    var first := MarkUnlessDry(s, env, dry, item.row, RETRYING, 1);
    if first.Ok? {
      var s1 := first.store;
      MarkKeeps(s1, env, dry, item.row, OPEN, 0, "");
      PersistsTransitive(s, s1, MarkUnlessDry(s1, env, dry, item.row, OPEN, 0).store);
      if item.config.Some? && item.fetch.Found? {
        var m := Message(item.row.messageId, item.fetch.receivedAt);
        var (r, keys1) := Process(s1, keys, env, item.config.value.(dry := dry), m, item.parse, Some(item.row));
        ProcessGrows(s1, keys, env, item.config.value.(dry := dry), m, item.parse, Some(item.row));
        PersistsTransitive(s, s1, r.store);
        if r.Ok? {
          var status := if IsResolved(r.value) then RESOLVED else OPEN;
          MarkKeeps(r.store, env, dry, item.row, status, 0, "");
          PersistsTransitive(s, r.store, MarkUnlessDry(r.store, env, dry, item.row, status, 0).store);
        }
      }
    }
  }

  lemma RetryOneResolved(s: Store, keys: set<string>, env: Env, dry: bool, item: RetryItem, key: string)
    requires ResolvedFor(s, key) && (KeyOf(item.row.messageId) == key && key in keys ==> key in s.txns)
    ensures ResolvedFor(RetryOne(s, keys, env, dry, item).0.store, key)
  {
    hide Process, MarkUnlessDry, ResolvedFor, KeyOf;
    MarkKeeps(s, env, dry, item.row, RETRYING, 1, key);
    var first := MarkUnlessDry(s, env, dry, item.row, RETRYING, 1);
    if first.Ok? {
      var s1 := first.store;
      MarkKeeps(s1, env, dry, item.row, OPEN, 0, key);
      if item.config.Some? && item.fetch.Found? {
        var m := Message(item.row.messageId, item.fetch.receivedAt);
        var (r, keys1) := Process(s1, keys, env, item.config.value.(dry := dry), m, item.parse, Some(item.row));
        ProcessResolved(s1, keys, env, item.config.value.(dry := dry), m, item.parse, Some(item.row), key);
        if r.Ok? {
          MarkKeeps(r.store, env, dry, item.row, if IsResolved(r.value) then RESOLVED else OPEN, 0, key);
        }
      }
    }
  }

  lemma OnceFrame(a: Store, b: Store, keys: set<string>, unique: bool)
    requires a.txns == b.txns
    ensures StoredOnce(a) == StoredOnce(b) && Guarded(a, keys, unique) == Guarded(b, keys, unique)
  {
  }

  lemma RetryOneOnce(s: Store, keys: set<string>, env: Env, dry: bool, item: RetryItem, unique: bool)
    requires StoredOnce(s) && Guarded(s, keys, unique)
    requires unique && item.config.Some? ==> item.config.value.unique
    ensures var (r, keys1) := RetryOne(s, keys, env, dry, item);
            StoredOnce(r.store) && Guarded(r.store, keys1, unique)
  {
    hide Process, MarkUnlessDry, StoredOnce, Guarded, ResolvedFor, Persists;
    MarkKeeps(s, env, dry, item.row, RETRYING, 1, "");
    var first := MarkUnlessDry(s, env, dry, item.row, RETRYING, 1);
    if first.Ok? {
      var s1 := first.store;
      OnceFrame(s, s1, keys, unique);
      MarkKeeps(s1, env, dry, item.row, OPEN, 0, "");
      OnceFrame(s1, MarkUnlessDry(s1, env, dry, item.row, OPEN, 0).store, keys, unique);
      if item.config.Some? && item.fetch.Found? {
        var m := Message(item.row.messageId, item.fetch.receivedAt);
        var ctx := item.config.value.(dry := dry);
        var (r, keys1) := Process(s1, keys, env, ctx, m, item.parse, Some(item.row));
        ProcessOnce(s1, keys, env, ctx, m, item.parse, Some(item.row), unique);
        if r.Ok? {
          var status := if IsResolved(r.value) then RESOLVED else OPEN;
          MarkKeeps(r.store, env, dry, item.row, status, 0, "");
          OnceFrame(r.store, MarkUnlessDry(r.store, env, dry, item.row, status, 0).store, keys1, unique);
        }
      }
    } else {
      OnceFrame(s, first.store, keys, unique);
    }
  }

  lemma {:induction false} RetryAllKeeps(s: Store, keys: set<string>, env: Env, dry: bool, items: seq<RetryItem>, unique: bool)
    requires unique ==> forall item <- items :: item.config.Some? ==> item.config.value.unique
    ensures var after := RetryAll(s, keys, env, dry, items).store;
            && Persists(s, after)
            && (StoredOnce(s) && Guarded(s, keys, unique) ==> StoredOnce(after))
    decreases |items|
  {
    hide RetryOne, StoredOnce, Guarded;
    if items != [] {
      var (r, keys1) := RetryOne(s, keys, env, dry, items[0]);
      assert items[0] in items;
      RetryOnePersists(s, keys, env, dry, items[0]);
      if StoredOnce(s) && Guarded(s, keys, unique) { RetryOneOnce(s, keys, env, dry, items[0], unique); }
      if r.Ok? {
        RetryAllKeeps(r.store, keys1, env, dry, items[1..], unique);
        PersistsTransitive(s, r.store, RetryAll(s, keys, env, dry, items).store);
      }
    }
  }

  lemma {:induction false} RetryAllResolved(s: Store, keys: set<string>, env: Env, dry: bool, items: seq<RetryItem>, key: string)
    requires ResolvedFor(s, key) && AtMostOnce(items, key)
    requires forall i :: 0 <= i < |items| && KeyOf(items[i].row.messageId) == key ==> (key in keys ==> key in s.txns)
    ensures ResolvedFor(RetryAll(s, keys, env, dry, items).store, key)
    decreases |items|
  {
    hide RetryOne, ResolvedFor, KeyOf;
    if items != [] {
      var (r, keys1) := RetryOne(s, keys, env, dry, items[0]);
      var rest := items[1..];
      RetryOnePersists(s, keys, env, dry, items[0]);
      RetryOneResolved(s, keys, env, dry, items[0], key);
      if r.Ok? {
        assert forall i :: 0 <= i < |rest| ==> rest[i] == items[i + 1];
        forall i | 0 <= i < |rest| && KeyOf(rest[i].row.messageId) == key && key in keys1 ensures key in r.store.txns {
          assert KeyOf(items[i + 1].row.messageId) == key;
          assert KeyOf(items[0].row.messageId) != key;
          StoredStays(s.txns, r.store.txns, key);
        }
        RetryAllResolved(r.store, keys1, env, dry, rest, key);
      }
    }
  }

  lemma RetryKeeps(s: Store, env: Env, dry: bool, items: seq<RetryItem>, unique: bool, key: string)
    requires unique ==> forall item <- items :: item.config.Some? ==> item.config.value.unique
    ensures var after := Retry(s, env, dry, items).store;
            && Persists(s, after)
            && (ResolvedFor(s, key) && AtMostOnce(items, key) ==> ResolvedFor(after, key))
            && (StoredOnce(s) && (unique || |s.txns| <= EXISTING_KEYS_LIMIT) ==> StoredOnce(after))
  {
    hide RetryAll, ResolvedFor, AtMostOnce, StoredOnce, KeyOf;
    SameTables(s, s, s, key);
    var r1 := Read(s, env);
    SameTables(s, s, r1.store, key);
    if r1.Ok? {
      var r2 := Read(r1.store, env);
      SameTables(s, s, r2.store, key);
      if r2.Ok? {
        var r3 := Read(r2.store, env);
        SameTables(s, s, r3.store, key);
        if r3.Ok? {
          var keys := Newest(r3.store.txns, EXISTING_KEYS_LIMIT);
          RetryAllKeeps(r3.store, keys, env, dry, items, unique);
          if ResolvedFor(s, key) && AtMostOnce(items, key) { RetryAllResolved(r3.store, keys, env, dry, items, key); }
          SameTables(RetryAll(r3.store, keys, env, dry, items).store, s, r3.store, key);
        }
      }
    }
  }

  lemma {:induction false} IgnoreAllKeeps(s: Store, env: Env, rows: seq<RowKey>, key: string)
    ensures var after := IgnoreAll(s, env, rows).store;
            && Persists(s, after) && after.txns == s.txns
            && (ResolvedFor(s, key) ==> ResolvedFor(after, key))
    decreases |rows|
  {
    hide UpdateStatus, ResolvedFor;
    if rows != [] {
      var r := UpdateStatus(s, env, rows[0], IGNORED, 0);
      UpdateStatusGrows(s, env, rows[0], IGNORED, 0);
      if ResolvedFor(s, key) { UpdateResolved(s, env, rows[0], IGNORED, 0, key); }
      if r.Ok? {
        IgnoreAllKeeps(r.store, env, rows[1..], key);
        PersistsTransitive(s, r.store, IgnoreAll(s, env, rows).store);
      }
    }
  }

  lemma IgnoreKeeps(s: Store, env: Env, rows: seq<RowKey>, key: string)
    ensures var after := IgnoreFailures(s, env, rows).store;
            && Persists(s, after) && after.txns == s.txns
            && (ResolvedFor(s, key) ==> ResolvedFor(after, key))
  {
    hide IgnoreAll, ResolvedFor;
    var r := Read(s, env);
    SameTables(s, s, r.store, key);
    IgnoreAllKeeps(r.store, env, rows, key);
    SameTables(IgnoreAll(r.store, env, rows).store, s, r.store, key);
  }

  // ---------------------------------------------------------------------------------------------
  // Histories
  // ---------------------------------------------------------------------------------------------

  lemma JobKeeps(s: Store, env: Env, job: Job, key: string)
    ensures var after := RunJob(s, env, job);
            && Persists(s, after)
            && (ResolvedFor(s, key) && Single(job, key) ==> ResolvedFor(after, key))
            && (StoredOnce(s) && (Constrained(job) || |s.txns| <= EXISTING_KEYS_LIMIT) ==> StoredOnce(after))
  {
    hide RunFolder, Retry, IgnoreFailures, ResolvedFor, StoredOnce, Persists, AtMostOnce;
    match job
    case Import(folder, ctx, polled, size, parser) =>
      SameTables(s, s, s, key);
      if size != 0 { ImportKeeps(s, env, folder, ctx, polled, size, parser, key); }
    case Replay(dry, items) => RetryKeeps(s, env, dry, items, Constrained(job), key);
    case Ignore(rows) =>
      IgnoreKeeps(s, env, rows, key);
      StoredOnceFrame(s, IgnoreFailures(s, env, rows).store);
  }

  lemma StoredOnceFrame(a: Store, b: Store)
    requires a.txns == b.txns
    ensures StoredOnce(a) == StoredOnce(b)
  {
  }

  /** Transactions and failure rows only accumulate, whatever the jobs and wherever they crash. */
  lemma {:induction false} HistoryPersists(s: Store, env: Env, jobs: seq<Job>)
    ensures Persists(s, RunJobs(s, env, jobs))
    decreases |jobs|
  {
    hide RunJob;
    if jobs != [] {
      JobKeeps(s, env, jobs[0], "");
      HistoryPersists(RunJob(s, env, jobs[0]), env, jobs[1..]);
      PersistsTransitive(s, RunJob(s, env, jobs[0]), RunJobs(s, env, jobs));
    }
  }

  /** Message by message: a resolved failure is a stored transaction after any history, when no replay
      selects that message twice. */
  lemma {:induction false} HistoryHonest(s: Store, env: Env, jobs: seq<Job>, key: string)
    requires ResolvedFor(s, key) && forall job <- jobs :: Single(job, key)
    ensures ResolvedFor(RunJobs(s, env, jobs), key)
    decreases |jobs|
  {
    hide RunJob, ResolvedFor, Single;
    if jobs != [] {
      assert jobs[0] in jobs;
      JobKeeps(s, env, jobs[0], key);
      HistoryHonest(RunJob(s, env, jobs[0]), env, jobs[1..], key);
    }
  }

  /** No message is stored twice: over any history of serial jobs, provided the database constraint is
      there, or the tenant never has more keys than one run loads. */
  lemma {:induction false} NeverStoredTwice(s: Store, env: Env, jobs: seq<Job>)
    requires StoredOnce(s)
    requires (forall job <- jobs :: Constrained(job)) || |RunJobs(s, env, jobs).txns| <= 10000
    ensures StoredOnce(RunJobs(s, env, jobs))
    decreases |jobs|
  {
    hide RunJob, Constrained, StoredOnce;
    if jobs != [] {
      var next := RunJob(s, env, jobs[0]);
      assert jobs[0] in jobs;
      JobKeeps(s, env, jobs[0], "");
      HistoryPersists(next, env, jobs[1..]);
      NeverStoredTwice(next, env, jobs[1..]);
    }
  }

  /** Whether processing a message gets as far as an insert that takes effect: it parses to a card of the
      wallet, its key was not seen, the run is live, the card row is found, and the insert is not lost. */
  predicate Inserts(s: Store, keys: set<string>, env: Env, ctx: Ctx, m: Message, parse: Parse) {
    && parse.Parsed? && parse.last4 in ctx.matched && parse.last4 in ctx.stored && Key(m) !in keys && !ctx.dry
    && env(s.clock).Fine? && (env(s.clock + 1).Fine? || env(s.clock + 1).FailsAfter?)
  }

  /** Exactly what one processed message adds to the stored transactions, in every environment. */
  lemma StoresExactly(s: Store, keys: set<string>, env: Env, ctx: Ctx, m: Message, parse: Parse, retry: Option<RowKey>)
    ensures Process(s, keys, env, ctx, m, parse, retry).0.store.txns ==
            if Inserts(s, keys, env, ctx, m, parse) && !(ctx.unique && Key(m) in s.txns) then s.txns + [Key(m)] else s.txns
  {
    hide UpdateStatus, UpsertFailure, AfterStore, Key;
    var row := RowKey(ctx.bank, m.id);
    UpsertFailureGrows(s, env, row, PARSE_MISS);
    UpsertFailureGrows(s, env, row, CARD_NOT_FOUND);
    var (a, _) := Attempt(s, keys, env, ctx, m, parse, retry);
    UpsertFailureGrows(a.store, env, row, PARSE_ERROR);
    if parse.Parsed? {
      AfterStoreGrows(StoreTxn(s, env, Key(m), parse.last4 in ctx.stored, ctx.unique), env, row, retry);
    }
  }

  lemma AppendOnce(txns: seq<string>, key: string)
    requires forall i, j :: 0 <= i < j < |txns| ==> txns[i] != txns[j]
    ensures (forall i, j :: 0 <= i < j < |txns + [key]| ==> (txns + [key])[i] != (txns + [key])[j]) <==> key !in txns
  {
    var all := txns + [key];
    if key in txns {
      var i :| 0 <= i < |txns| && txns[i] == key;
      assert all[i] == all[|txns|];
    } else {
      assert forall i :: 0 <= i < |txns| ==> txns[i] in txns;
    }
  }

  /** In every environment, and whatever keys the run loaded however long ago: processing a message stores
      it a second time exactly when its insert takes effect, there is no constraint, and it was stored. As
      its key was then not among the loaded ones, it is older than they reach or was stored since. */
  lemma StoredAgainIff(s: Store, keys: set<string>, env: Env, ctx: Ctx, m: Message, parse: Parse, retry: Option<RowKey>)
    requires StoredOnce(s)
    ensures StoredOnce(Process(s, keys, env, ctx, m, parse, retry).0.store) <==>
            !Inserts(s, keys, env, ctx, m, parse) || ctx.unique || Key(m) !in s.txns
  {
    hide Process, Key, Inserts;
    StoresExactly(s, keys, env, ctx, m, parse, retry);
    AppendOnce(s.txns, Key(m));
  }

  /** An import and a replay of one parsed message that overlap: each loaded keys that were stored, and
      then, with no fault in the way, the one processes the message and after it the other. It ends up
      stored once exactly under the constraint or when both had loaded its key. */
  lemma RaceStoresOnceIff(s: Store, k1: set<string>, k2: set<string>, env: Env, ctx: Ctx, m: Message, last4: string, row: RowKey)
    requires StoredOnce(s) && !ctx.dry && last4 in ctx.matched && last4 in ctx.stored
    requires (forall k <- k1 :: k in s.txns) && (forall k <- k2 :: k in s.txns) && forall n :: env(n) == Fine
    ensures var imported := Process(s, k1, env, ctx, m, Parsed(last4), None).0.store;
            var replayed := Process(imported, k2, env, ctx, m, Parsed(last4), Some(row)).0.store;
            StoredOnce(replayed) <==> ctx.unique || (Key(m) in k1 && Key(m) in k2)
  {
    hide Process, Key;
    var imported := Process(s, k1, env, ctx, m, Parsed(last4), None).0.store;
    StoresExactly(s, k1, env, ctx, m, Parsed(last4), None);
    StoresExactly(imported, k2, env, ctx, m, Parsed(last4), Some(row));
    StoredAgainIff(s, k1, env, ctx, m, Parsed(last4), None);
    if StoredOnce(imported) {
      StoredAgainIff(imported, k2, env, ctx, m, Parsed(last4), Some(row));
    } else {
      RepeatsStay(imported, Process(imported, k2, env, ctx, m, Parsed(last4), Some(row)).0.store);
    }
  }

  lemma RepeatsStay(a: Store, b: Store)
    requires !StoredOnce(a) && |a.txns| <= |b.txns| && a.txns == b.txns[..|a.txns|]
    ensures !StoredOnce(b)
  {
    var i, j :| 0 <= i < j < |a.txns| && a.txns[i] == a.txns[j];
    assert b.txns[i] == b.txns[j];
  }

  /** Stored, or still on the failure list (open, being retried, or set aside by hand). */
  ghost predicate Covered(s: Store, bank: string, m: Message) {
    Key(m) in s.txns || (RowKey(bank, m.id) in s.failures && s.failures[RowKey(bank, m.id)].status != RESOLVED)
  }

  /** What is covered stays covered, over any history that replays the message at most once at a time. */
  lemma CoveredStays(s: Store, env: Env, jobs: seq<Job>, bank: string, m: Message)
    requires Covered(s, bank, m) && ResolvedFor(s, Key(m)) && forall job <- jobs :: Single(job, Key(m))
    ensures Covered(RunJobs(s, env, jobs), bank, m)
  {
    hide RunJobs, Single;
    HistoryPersists(s, env, jobs);
    HistoryHonest(s, env, jobs, Key(m));
    var after := RunJobs(s, env, jobs);
    if Key(m) in s.txns {
      StoredStays(s.txns, after.txns, Key(m));
    } else {
      assert RowKey(bank, m.id) in after.failures;
    }
  }

  /** Under its own bank key: once a live run has moved the watermark past its due messages, or returned,
      every one of them is stored or on the failure list of that bank for ever after, when no replay
      selects it twice. */
  lemma NeverLostUnderBank(s: Store, env: Env, folder: Folder, ctx: Ctx, polled: seq<Message>, size: nat, parser: Parser,
                           later: seq<Job>, m: Message)
    requires ResolvedFor(s, Key(m)) && forall job <- later :: Single(job, Key(m))
    requires 0 < size && ctx.bank == folder.bank && !ctx.dry && TrimApart(polled)
    requires m in Due(s, folder, polled)
    ensures var r := RunFolder(s, env, folder, ctx, Some(polled), size, parser);
            r.Ok? || r.store.watermarks != s.watermarks ==> Covered(RunJobs(r.store, env, later), folder.bank, m)
  {
    hide RunFolder, RunJobs, Due, ResolvedFor, Single, TrimApart, Cutoff, MaxReceived;
    var r := RunFolder(s, env, folder, ctx, Some(polled), size, parser);
    WatermarkSafe(s, env, folder, ctx, polled, size, parser);
    ImportKeeps(s, env, folder, ctx, Some(polled), size, parser, Key(m));
    if r.Ok? || r.store.watermarks != s.watermarks {
      assert Accounted(r.store, folder.bank, m);
      CoveredStays(r.store, env, later, folder.bank, m);
    }
  }

  // ---------------------------------------------------------------------------------------------
  // Mail that shows up at or below the watermark
  // ---------------------------------------------------------------------------------------------

  lemma {:induction false} DrainAdds(s: Store, keys: set<string>, env: Env, ctx: Ctx, items: seq<(Message, Parse)>, st: Stats, key: string)
    requires forall item <- items :: Key(item.0) != key
    ensures key in Drain(s, keys, env, ctx, items, st).store.txns ==> key in s.txns
    decreases |items|
  {
    hide Process, Key;
    if items != [] {
      var (r, keys1) := Process(s, keys, env, ctx, items[0].0, items[0].1, None);
      assert items[0] in items;
      ProcessGrows(s, keys, env, ctx, items[0].0, items[0].1, None);
      if r.Ok? { DrainAdds(r.store, keys1, env, ctx, items[1..], Count(st, r.value), key); }
    }
  }

  lemma DrainIgnoresOthers(s: Store, keys: set<string>, env: Env, ctx: Ctx, due: seq<Message>, size: nat, parser: Parser, m: Message)
    requires 0 < size && forall d <- due :: Key(d) != Key(m)
    ensures Covered(Drain(s, keys, env, ctx, Items(due, size, parser), NO_STATS).store, ctx.bank, m) ==> Covered(s, ctx.bank, m)
  {
    hide Drain, Items;
    var items := Items(due, size, parser);
    ItemsMembers(due, size, parser);
    DrainAdds(s, keys, env, ctx, items, NO_STATS, Key(m));
    DrainGrows(s, keys, env, ctx, items, NO_STATS);
    forall item <- items ensures item.0.id != m.id { KeysApart(item.0, m); }
    assert RowKey(ctx.bank, m.id) !in RowsOf(ctx.bank, items);
  }

  lemma KeysApart(a: Message, b: Message)
    requires Key(a) != Key(b)
    ensures a.id != b.id
  {
  }

  lemma DrainKeepsCovered(s: Store, keys: set<string>, env: Env, ctx: Ctx, items: seq<(Message, Parse)>, bank: string, m: Message)
    requires Covered(s, bank, m)
    ensures Covered(Drain(s, keys, env, ctx, items, NO_STATS).store, bank, m)
  {
    hide Drain, Key;
    DrainGrows(s, keys, env, ctx, items, NO_STATS);
    DrainKeepsRows(s, keys, env, ctx, items, NO_STATS);
    if Key(m) in s.txns { StoredStays(s.txns, Drain(s, keys, env, ctx, items, NO_STATS).store.txns, Key(m)); }
  }

  lemma CoveredFrame(a: Store, b: Store, bank: string, m: Message)
    requires a.txns == b.txns && a.failures == b.failures
    ensures Covered(a, bank, m) == Covered(b, bank, m)
  {
  }

  /** After a live run that returned, exactly these polled messages are covered: those received after the
      old watermark, and those covered before. Mail that first shows up at or below the watermark is
      neither, and stays uncovered. */
  lemma PolledCoveredIff(s: Store, env: Env, folder: Folder, ctx: Ctx, polled: seq<Message>, size: nat, parser: Parser, m: Message)
    requires 0 < size && ctx.bank == folder.bank && !ctx.dry && TrimApart(polled) && m in polled
    ensures var r := RunFolder(s, env, folder, ctx, Some(polled), size, parser);
            r.Ok? ==>
              (Covered(r.store, folder.bank, m) <==>
               (exists d <- Due(s, folder, polled) :: d.id == m.id) || Covered(s, folder.bank, m))
  {
    hide Drain, Items, Finish, RunFolder, BeforeWatermark, Cutoff, MaxReceived, Newest, Covered, Key;
    var due, keys := Due(s, folder, polled), Newest(s.txns, EXISTING_KEYS_LIMIT);
    var start := FolderParts(s, env, folder, ctx, polled, size, parser);
    var b := BeforeWatermark(s, env, folder, ctx, polled, size, parser);
    RunIsFinish(s, env, folder, ctx, polled, size, parser);
    FinishEffect(b, env, folder, ctx.dry, MaxReceived(due));
    var after := RunFolder(s, env, folder, ctx, Some(polled), size, parser).store;
    CoveredFrame(b.store, after, folder.bank, m);
    CoveredFrame(s, start, folder.bank, m);
    if d :| d in due && d.id == m.id {
      WatermarkSafe(s, env, folder, ctx, polled, size, parser);
      if RunFolder(s, env, folder, ctx, Some(polled), size, parser).Ok? { AccountedIsCovered(after, folder.bank, d, m); }
    } else {
      ApartKeys(polled);
      assert forall d <- due :: Key(d) != Key(m);
      DrainIgnoresOthers(start, keys, env, ctx, due, size, parser, m);
      if Covered(s, folder.bank, m) { DrainKeepsCovered(start, keys, env, ctx, Items(due, size, parser), folder.bank, m); }
    }
  }

  lemma AccountedIsCovered(s: Store, bank: string, d: Message, m: Message)
    requires d.id == m.id && Accounted(s, bank, d)
    ensures Covered(s, bank, m)
  {
  }

  /** For instance one message of time 5 under a watermark of 10: a fault-free run returns, and the message
      is neither stored nor on the failure list. */
  lemma LateMailUncovered(bank: string, id: string, env: Env, parser: Parser)
    requires forall n :: env(n) == Fine
    ensures var s := Store([], map[], map[bank := 10], 0);
            var r := RunFolder(s, env, Folder(bank, None), Ctx(bank, {}, {}, true, false), Some([Message(id, 5)]), 1, parser);
            r.Ok? && !Covered(r.store, bank, Message(id, 5))
  {
    hide KeyOf;
    var s, m := Store([], map[], map[bank := 10], 0), Message(id, 5);
    assert Above([m], Some(10)) == [] + Above([m][1..], Some(10)) == [];
    assert Items([], 1, parser) == [];
    assert MaxReceived([]) == 0;
  }

  // ---------------------------------------------------------------------------------------------
  // Folder statistics
  // ---------------------------------------------------------------------------------------------

  function Sum(st: Stats): nat {
    st.inserted + st.duplicates + st.parseMiss + st.parseErrors + st.writeFailures + st.cardMissing
  }

  lemma {:induction false} DrainCounts(s: Store, keys: set<string>, env: Env, ctx: Ctx, items: seq<(Message, Parse)>, st: Stats)
    ensures Drain(s, keys, env, ctx, items, st).Ok? ==> Sum(Drain(s, keys, env, ctx, items, st).value) == Sum(st) + |items|
    decreases |items|
  {
    hide Process;
    if items != [] {
      var (r, keys1) := Process(s, keys, env, ctx, items[0].0, items[0].1, None);
      if r.Ok? { DrainCounts(r.store, keys1, env, ctx, items[1..], Count(st, r.value)); }
    }
  }

  lemma DrainDueCounts(s: Store, keys: set<string>, env: Env, ctx: Ctx, due: seq<Message>, size: nat, parser: Parser)
    requires 0 < size
    ensures var d := Drain(s, keys, env, ctx, Items(due, size, parser), NO_STATS);
            d.Ok? ==> Sum(d.value) == |due|
  {
    hide Drain, Items, Sum;
    DrainCounts(s, keys, env, ctx, Items(due, size, parser), NO_STATS);
    NothingCounted();
  }

  /** The statistics of a folder that returned partition its due messages. */
  lemma StatsPartition(s: Store, env: Env, folder: Folder, ctx: Ctx, polled: seq<Message>, size: nat, parser: Parser)
    requires 0 < size
    ensures var r := RunFolder(s, env, folder, ctx, Some(polled), size, parser);
            r.Ok? ==> Sum(r.value) == |Due(s, folder, polled)|
  {
    hide Drain, Items, Finish, RunFolder, BeforeWatermark, Due, Cutoff, MaxReceived, Newest, Sum;
    var start := FolderParts(s, env, folder, ctx, polled, size, parser);
    var due, keys := Due(s, folder, polled), Newest(s.txns, EXISTING_KEYS_LIMIT);
    DrainDueCounts(start, keys, env, ctx, due, size, parser);
    RunIsFinish(s, env, folder, ctx, polled, size, parser);
    FinishEffect(BeforeWatermark(s, env, folder, ctx, polled, size, parser), env, folder, ctx.dry, MaxReceived(due));
  }

  lemma NothingCounted()
    ensures Sum(NO_STATS) == 0
  {
  }
}
