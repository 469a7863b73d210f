/**
 The same message under two bank keys in one replay. A failed insert for the first row makes the second
 look like a duplicate, and its row is resolved with nothing stored. The theorem: for a selection of
 failure rows, replaying them keeps RESOLVED honest for a message in every environment exactly when the
 selection holds that message at most once.
 */
module ReplaySafety {
  import opened Wrappers
  import opened CcTxnImport
  import opened ImportHistory

  ghost predicate DistinctRows(rows: seq<RowKey>) {
    forall i, j :: 0 <= i < j < |rows| ==> rows[i] != rows[j]
  }

  /** The message of this key is selected at most once. */
  predicate SelectedOnce(rows: seq<RowKey>, key: string) {
    forall i, j :: 0 <= i < j < |rows| && KeyOf(rows[i].messageId) == key ==> KeyOf(rows[j].messageId) != key
  }

  ghost predicate SelectedFrom(items: seq<RetryItem>, rows: seq<RowKey>) {
    |items| == |rows| && forall i :: 0 <= i < |rows| ==> items[i].row == rows[i]
  }

  /** Whatever was stored, whatever faults strike and whatever Gmail and the parsers answer: replaying
      these rows leaves no RESOLVED failure of this message without its transaction. */
  ghost predicate ReplaySoundFor(rows: seq<RowKey>, key: string) {
    forall s: Store, env: Env, dry: bool, items: seq<RetryItem> ::
      SelectedFrom(items, rows) && ResolvedFor(s, key) ==> ResolvedFor(Retry(s, env, dry, items).store, key)
  }

  // ---------------------------------------------------------------------------------------------
  // Single replayed messages
  // ---------------------------------------------------------------------------------------------

  /** A replayed message whose insert fails is recorded again and left open, with its key seen. */
  lemma ReplayFailedInsert(s: Store, keys: set<string>, env: Env, item: RetryItem)
    requires item.config.Some? && item.fetch.Found? && item.parse.Parsed?
    requires item.config.value.bank == item.row.bank && item.row in s.failures
    requires item.parse.last4 in item.config.value.matched && item.parse.last4 in item.config.value.stored
    requires KeyOf(item.row.messageId) !in keys
    requires env(s.clock + 2) == FailsBefore
    requires env(s.clock) == Fine && env(s.clock + 1) == Fine
    requires env(s.clock + 3) == Fine && env(s.clock + 4) == Fine && env(s.clock + 5) == Fine
    ensures var (r, keys1) := RetryOne(s, keys, env, false, item);
            && r.Ok? && r.store.clock == s.clock + 6 && r.store.txns == s.txns && s.failures.Keys <= r.store.failures.Keys
            && keys1 == keys + {KeyOf(item.row.messageId)}
  {
    hide KeyOf;
    var marked := UpdateStatus(s, env, item.row, RETRYING, 1);
    assert marked.Ok? && marked.store.clock == s.clock + 1;
    var ctx, m := item.config.value.(dry := false), Message(item.row.messageId, item.fetch.receivedAt);
    FailedInsert(marked.store, keys, env, ctx, m, item.parse, item.row);
  }

  lemma FailedInsert(s: Store, keys: set<string>, env: Env, ctx: Ctx, m: Message, parse: Parse, row: RowKey)
    requires parse.Parsed? && parse.last4 in ctx.matched && parse.last4 in ctx.stored && !ctx.dry && Key(m) !in keys
    requires row == RowKey(ctx.bank, m.id)
    requires env(s.clock) == Fine && env(s.clock + 1) == FailsBefore && env(s.clock + 2) == Fine && env(s.clock + 3) == Fine
    ensures var (r, keys1) := Process(s, keys, env, ctx, m, parse, Some(row));
            && r.Ok? && r.value == WriteFailed && r.store.clock == s.clock + 4
            && r.store.txns == s.txns && row in r.store.failures && s.failures.Keys <= r.store.failures.Keys
            && keys1 == keys + {Key(m)}
  {
    hide Key;
    var w := StoreTxn(s, env, Key(m), true, ctx.unique);
    assert w == Ok(WriteFailed, s.(clock := s.clock + 2));
  }

  /** A replayed message whose key was seen counts as a duplicate, and its row is resolved. */
  lemma ReplayDuplicate(s: Store, keys: set<string>, env: Env, item: RetryItem)
    requires item.config.Some? && item.fetch.Found? && item.parse.Parsed? && item.row in s.failures
    requires item.parse.last4 in item.config.value.matched && KeyOf(item.row.messageId) in keys
    requires env(s.clock) == Fine && env(s.clock + 1) == Fine
    ensures var (r, _) := RetryOne(s, keys, env, false, item);
            && r.Ok? && r.store.txns == s.txns && r.store.clock == s.clock + 2
            && item.row in r.store.failures && r.store.failures[item.row].status == RESOLVED
  {
    hide KeyOf;
  }

  // ---------------------------------------------------------------------------------------------
  // The failing replay
  // ---------------------------------------------------------------------------------------------

  lemma RetryBegins(s: Store, env: Env, items: seq<RetryItem>)
    requires s.txns == [] && env(s.clock) == Fine && env(s.clock + 1) == Fine && env(s.clock + 2) == Fine
    ensures Retry(s, env, false, items) == RetryAll(s.(clock := s.clock + 3), {}, env, false, items)
  {
    hide RetryAll;
    assert Newest([], EXISTING_KEYS_LIMIT) == {};
  }

  /** A row whose bank key has no folder: marked, then reopened. */
  function Unknown(row: RowKey): RetryItem {
    RetryItem(row, None, Missing, Miss)
  }

  function Unknowns(rows: seq<RowKey>): (r: seq<RetryItem>)
    ensures SelectedFrom(r, rows)
  {
    if rows == [] then [] else [Unknown(rows[0])] + Unknowns(rows[1..])
  }

  /** A row whose message is found and parses to a known card. */
  function Live(row: RowKey): RetryItem {
    RetryItem(row, Some(Ctx(row.bank, {"1111"}, {"1111"}, true, false)), Found(1), Parsed("1111"))
  }

  lemma UnknownPasses(s: Store, keys: set<string>, env: Env, row: RowKey)
    requires row in s.failures && env(s.clock) == Fine && env(s.clock + 1) == Fine
    ensures var (r, keys1) := RetryOne(s, keys, env, false, Unknown(row));
            && r.Ok? && keys1 == keys && r.store.clock == s.clock + 2 && r.store.txns == s.txns
            && r.store.failures.Keys == s.failures.Keys
            && forall k :: k in s.failures && k != row ==> r.store.failures[k] == s.failures[k]
  {
  }

  lemma RetryStep(s: Store, keys: set<string>, env: Env, item: RetryItem, rest: seq<RetryItem>)
    ensures var (r, keys1) := RetryOne(s, keys, env, false, item);
            r.Ok? ==> RetryAll(s, keys, env, false, [item] + rest) == RetryAll(r.store, keys1, env, false, rest)
  {
    hide RetryOne;
    assert ([item] + rest)[1..] == rest;
  }

  lemma {:induction false} UnknownsPass(s: Store, keys: set<string>, env: Env, rows: seq<RowKey>, rest: seq<RetryItem>)
    returns (t: Store)
    requires forall r <- rows :: r in s.failures
    requires forall n :: s.clock <= n < s.clock + 2 * |rows| ==> env(n) == Fine
    ensures RetryAll(s, keys, env, false, Unknowns(rows) + rest) == RetryAll(t, keys, env, false, rest)
    ensures t.txns == s.txns && t.clock == s.clock + 2 * |rows| && t.failures.Keys == s.failures.Keys
    ensures forall k :: k in s.failures && k !in rows ==> t.failures[k] == s.failures[k]
    decreases |rows|
  {
    hide RetryAll, RetryOne;
    if rows == [] {
      t := s;
      assert Unknowns(rows) + rest == rest;
    } else {
      UnknownPasses(s, keys, env, rows[0]);
      var next := RetryOne(s, keys, env, false, Unknown(rows[0])).0.store;
      assert Unknowns(rows) + rest == [Unknown(rows[0])] + (Unknowns(rows[1..]) + rest);
      RetryStep(s, keys, env, Unknown(rows[0]), Unknowns(rows[1..]) + rest);
      t := UnknownsPass(next, keys, env, rows[1..], rest);
    }
  }

  lemma NothingLeft(s: Store, keys: set<string>, env: Env)
    ensures RetryAll(s, keys, env, false, []).store == s
  {
  }

  function OpenRows(rows: seq<RowKey>): Store {
    Store([], map row | row in rows :: FailureRow(OPEN, 1, PARSE_MISS), map[], 0)
  }

  ghost predicate FineFrom(env: Env, clock: nat) {
    forall n :: clock <= n ==> env(n) == Fine
  }

  /** A seen key makes q a duplicate; nothing after it undoes that. */
  lemma SecondResolved(s: Store, keys: set<string>, env: Env, q: RowKey, c: seq<RowKey>)
    requires s.txns == [] && KeyOf(q.messageId) in keys && FineFrom(env, s.clock)
    requires q in s.failures && q !in c && forall r <- c :: r in s.failures
    ensures !ResolvedFor(RetryAll(s, keys, env, false, [Live(q)] + Unknowns(c)).store, KeyOf(q.messageId))
  {
    hide RetryAll, RetryOne, KeyOf, Unknowns;
    ReplayDuplicate(s, keys, env, Live(q));
    RetryOnePersists(s, keys, env, false, Live(q));
    RetryStep(s, keys, env, Live(q), Unknowns(c));
    var (r, keys1) := RetryOne(s, keys, env, false, Live(q));
    assert Unknowns(c) + [] == Unknowns(c);
    var t := UnknownsPass(r.store, keys1, env, c, []);
    NothingLeft(t, keys1, env);
    assert q in t.failures && t.failures[q].status == RESOLVED && KeyOf(q.messageId) !in t.txns;
  }

  lemma MiddlePasses(s: Store, keys: set<string>, env: Env, b: seq<RowKey>, q: RowKey, c: seq<RowKey>)
    requires s.txns == [] && KeyOf(q.messageId) in keys && FineFrom(env, s.clock)
    requires q in s.failures && q !in c && (forall r <- b :: r in s.failures) && (forall r <- c :: r in s.failures)
    ensures !ResolvedFor(RetryAll(s, keys, env, false, Unknowns(b) + ([Live(q)] + Unknowns(c))).store, KeyOf(q.messageId))
  {
    hide RetryAll, RetryOne, KeyOf, Unknowns, ResolvedFor;
    var t := UnknownsPass(s, keys, env, b, [Live(q)] + Unknowns(c));
    SecondResolved(t, keys, env, q, c);
  }

  lemma FirstFails(s: Store, env: Env, p: RowKey, b: seq<RowKey>, q: RowKey, c: seq<RowKey>)
    requires s.txns == [] && KeyOf(p.messageId) == KeyOf(q.messageId)
    requires forall n :: s.clock <= n ==> env(n) == if n == s.clock + 2 then FailsBefore else Fine
    requires p in s.failures && q in s.failures && q !in c
    requires (forall r <- b :: r in s.failures) && (forall r <- c :: r in s.failures)
    ensures !ResolvedFor(RetryAll(s, {}, env, false, [Live(p)] + (Unknowns(b) + ([Live(q)] + Unknowns(c)))).store, KeyOf(q.messageId))
  {
    hide RetryAll, RetryOne, KeyOf, Unknowns, ResolvedFor;
    ReplayFailedInsert(s, {}, env, Live(p));
    RetryStep(s, {}, env, Live(p), Unknowns(b) + ([Live(q)] + Unknowns(c)));
    var (r, keys) := RetryOne(s, {}, env, false, Live(p));
    MiddlePasses(r.store, keys, env, b, q, c);
  }

  /** Rows a, p, b, q, c with p and q naming one message: p's insert fails and q is resolved unstored. */
  lemma ReplayUnsound(s: Store, a: seq<RowKey>, p: RowKey, b: seq<RowKey>, q: RowKey, c: seq<RowKey>, env: Env)
    requires s.txns == [] && s.clock == 0 && KeyOf(p.messageId) == KeyOf(q.messageId)
    requires forall n :: env(n) == if n == 5 + 2 * |a| then FailsBefore else Fine
    requires p in s.failures && q in s.failures && q !in c
    requires (forall r <- a :: r in s.failures) && (forall r <- b :: r in s.failures) && (forall r <- c :: r in s.failures)
    ensures !ResolvedFor(Retry(s, env, false, Scenario(a, p, b, q, c)).store, KeyOf(q.messageId))
  {
    hide Retry, RetryAll, RetryOne, KeyOf, Unknowns, ResolvedFor;
    var rest := [Live(p)] + (Unknowns(b) + ([Live(q)] + Unknowns(c)));
    RetryBegins(s, env, Unknowns(a) + rest);
    var t := UnknownsPass(s.(clock := 3), {}, env, a, rest);
    FirstFails(t, env, p, b, q, c);
  }

  function Scenario(a: seq<RowKey>, p: RowKey, b: seq<RowKey>, q: RowKey, c: seq<RowKey>): seq<RetryItem> {
    Unknowns(a) + ([Live(p)] + (Unknowns(b) + ([Live(q)] + Unknowns(c))))
  }

  lemma SelectedAppend(x: seq<RetryItem>, rows: seq<RowKey>, y: seq<RetryItem>, more: seq<RowKey>)
    requires SelectedFrom(x, rows) && SelectedFrom(y, more)
    ensures SelectedFrom(x + y, rows + more)
  {
  }

  lemma ScenarioSelected(a: seq<RowKey>, p: RowKey, b: seq<RowKey>, q: RowKey, c: seq<RowKey>)
    ensures SelectedFrom(Scenario(a, p, b, q, c), a + ([p] + (b + ([q] + c))))
  {
    hide SelectedFrom, Unknowns;
    LiveSelected(p);
    LiveSelected(q);
    SelectedAppend([Live(q)], [q], Unknowns(c), c);
    SelectedAppend(Unknowns(b), b, [Live(q)] + Unknowns(c), [q] + c);
    SelectedAppend([Live(p)], [p], Unknowns(b) + ([Live(q)] + Unknowns(c)), b + ([q] + c));
    SelectedAppend(Unknowns(a), a, [Live(p)] + (Unknowns(b) + ([Live(q)] + Unknowns(c))), [p] + (b + ([q] + c)));
  }

  lemma LiveSelected(row: RowKey)
    ensures SelectedFrom([Live(row)], [row])
  {
  }

  lemma ScenarioUnsound(rows: seq<RowKey>, a: seq<RowKey>, p: RowKey, b: seq<RowKey>, q: RowKey, c: seq<RowKey>)
    requires rows == a + ([p] + (b + ([q] + c)))
    requires KeyOf(p.messageId) == KeyOf(q.messageId) && q !in c
    ensures !ReplaySoundFor(rows, KeyOf(q.messageId))
  {
    hide Retry, KeyOf, Scenario, SelectedFrom, ResolvedFor, OpenRows;
    var s, items := OpenRows(rows), Scenario(a, p, b, q, c);
    var n := 5 + 2 * |a|;
    var env: Env := k => if k == n then FailsBefore else Fine;
    OpenRowsHold(a, p, b, q, c);
    ReplayUnsound(s, a, p, b, q, c, env);
    ScenarioSelected(a, p, b, q, c);
    OpenIsSound(rows, KeyOf(q.messageId));
    assert SelectedFrom(items, rows) && ResolvedFor(s, KeyOf(q.messageId))
           && !ResolvedFor(Retry(s, env, false, items).store, KeyOf(q.messageId));
  }

  lemma OpenRowsHold(a: seq<RowKey>, p: RowKey, b: seq<RowKey>, q: RowKey, c: seq<RowKey>)
    ensures var s := OpenRows(a + ([p] + (b + ([q] + c))));
            && s.txns == [] && s.clock == 0 && p in s.failures && q in s.failures
            && (forall r <- a :: r in s.failures) && (forall r <- b :: r in s.failures) && (forall r <- c :: r in s.failures)
  {
  }

  lemma SomeReplayUnsound(rows: seq<RowKey>, i: nat, j: nat)
    requires DistinctRows(rows) && i < j < |rows| && KeyOf(rows[i].messageId) == KeyOf(rows[j].messageId)
    ensures !ReplaySoundFor(rows, KeyOf(rows[j].messageId))
  {
    hide ReplaySoundFor, KeyOf;
    SplitTwice(rows, i, j);
    ScenarioUnsound(rows, rows[..i], rows[i], rows[i + 1..j], rows[j], rows[j + 1..]);
  }

  lemma OpenIsSound(rows: seq<RowKey>, key: string)
    ensures ResolvedFor(OpenRows(rows), key)
  {
  }

  lemma OnceReplaySound(rows: seq<RowKey>, key: string)
    requires SelectedOnce(rows, key)
    ensures ReplaySoundFor(rows, key)
  {
    hide Retry, KeyOf, ResolvedFor;
    forall s: Store, env: Env, dry: bool, items: seq<RetryItem> | SelectedFrom(items, rows) && ResolvedFor(s, key)
      ensures ResolvedFor(Retry(s, env, dry, items).store, key)
    {
      RetryKeeps(s, env, dry, items, false, key);
    }
  }

  /** Replaying a selection is sound for a message in every environment exactly when the selection holds
      that message at most once. */
  lemma ReplaySoundIff(rows: seq<RowKey>, key: string)
    requires DistinctRows(rows)
    ensures ReplaySoundFor(rows, key) <==> SelectedOnce(rows, key)
  {
    hide ReplaySoundFor, KeyOf;
    if SelectedOnce(rows, key) {
      OnceReplaySound(rows, key);
    } else {
      var i, j :| 0 <= i < j < |rows| && KeyOf(rows[i].messageId) == key && KeyOf(rows[j].messageId) == key;
      SomeReplayUnsound(rows, i, j);
    }
  }

  lemma SplitTwice<T>(s: seq<T>, i: nat, j: nat)
    requires i < j < |s|
    ensures s == s[..i] + ([s[i]] + (s[i + 1..j] + ([s[j]] + s[j + 1..])))
  {
  }

  /** For instance one message under the bank keys A and B, with a fault at one call only. */
  lemma ReplayTwiceUnsound(id: string)
    ensures DistinctRows([RowKey("A", id), RowKey("B", id)]) && !ReplaySoundFor([RowKey("A", id), RowKey("B", id)], KeyOf(id))
  {
    var rows := [RowKey("A", id), RowKey("B", id)];
    assert rows[0].messageId == rows[1].messageId;
    ReplaySoundIff(rows, KeyOf(id));
  }
}
