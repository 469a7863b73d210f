/**
 What the import does when no call fails: the answer to each message, which mail ends up stored and
 counted, and how a replayed failure is settled. Keys, rows and counters are spelled out here, in terms of
 the mail ids and of what the parsers say.
 */
module ImportOutcomes {
  import opened Wrappers
  import opened Payments
  import opened CcTxnImport
  import opened ImportHistory
  import opened ImportServices

  ghost predicate NoFaults(env: Env) {
    forall n :: env(n) == Fine
  }

  /** The only thing that changed is the failure row: open, of this type, with one attempt if it is new and
      its old count otherwise. */
  ghost predicate Recorded(s: Store, after: Store, row: RowKey, failureType: FailureType) {
    && after.txns == s.txns && after.watermarks == s.watermarks
    && after.failures == s.failures[row := FailureRow(OPEN, if row in s.failures then s.failures[row].attempts else 1, failureType)]
  }

  ghost predicate Untouched(s: Store, after: Store) {
    after.txns == s.txns && after.watermarks == s.watermarks && after.failures == s.failures
  }

  /** The stored transactions are `txns`, and the replayed failure, if any, is resolved. */
  ghost predicate Stored(s: Store, after: Store, txns: seq<string>, retry: Option<RowKey>) {
    && after.txns == txns && after.watermarks == s.watermarks
    && (retry.None? ==> after.failures == s.failures)
    && (retry.Some? && retry.value in s.failures ==>
          after.failures == s.failures[retry.value := s.failures[retry.value].(status := RESOLVED)])
  }

  lemma UpsertRecords(s: Store, env: Env, row: RowKey, failureType: FailureType)
    requires NoFaults(env)
    ensures var r := UpsertFailure(s, env, row, failureType); r.Ok? && Recorded(s, r.store, row, failureType)
  {
  }

  lemma InsertAnswers(s: Store, env: Env, key: string, hasCard: bool, unique: bool)
    requires NoFaults(env)
    ensures var r := StoreTxn(s, env, key, hasCard, unique);
            && r.Ok? && r.store.failures == s.failures && r.store.watermarks == s.watermarks
            && r.value == (if !hasCard then CardMissing else if unique && key in s.txns then Duplicate else Inserted)
            && r.store.txns == (if r.value == Inserted then s.txns + [key] else s.txns)
  {
  }

  lemma UpdateSets(s: Store, env: Env, row: RowKey, status: Status, extra: nat)
    requires NoFaults(env) && row in s.failures
    ensures var r := UpdateStatus(s, env, row, status, extra);
            && r.Ok? && r.store.txns == s.txns && r.store.watermarks == s.watermarks
            && r.store.failures == s.failures[row := s.failures[row].(status := status, attempts := s.failures[row].attempts + extra)]
  {
  }

  /** The answer to a message that does not reach a card of the wallet: its failure row, and no key. */
  lemma Unmatched(s: Store, keys: set<string>, env: Env, ctx: Ctx, m: Message, parse: Parse, retry: Option<RowKey>)
    requires NoFaults(env) && (parse.Parsed? ==> parse.last4 !in ctx.matched)
    ensures var (r, keys1) := Process(s, keys, env, ctx, m, parse, retry);
            && r.Ok? && keys1 == keys
            && (parse.Throws? ==> r.value == ParseError && Recorded(s, r.store, RowKey(ctx.bank, m.id), PARSE_ERROR))
            && (parse.Miss? ==> r.value == ParseMiss && Recorded(s, r.store, RowKey(ctx.bank, m.id), PARSE_MISS))
            && (parse.Parsed? ==> r.value == CardMissing && Recorded(s, r.store, RowKey(ctx.bank, m.id), CARD_NOT_FOUND))
  {
    hide UpsertFailure, Recorded, Key;
    var row := RowKey(ctx.bank, m.id);
    UpsertRecords(s, env, row, PARSE_ERROR);
    UpsertRecords(s, env, row, PARSE_MISS);
    UpsertRecords(s, env, row, CARD_NOT_FOUND);
  }

  lemma AfterInsert(w: R<Kind>, env: Env, row: RowKey, retry: Option<RowKey>)
    requires NoFaults(env) && w.Ok? && (w.value == CardMissing || w.value == Duplicate || w.value == Inserted)
    requires retry.Some? ==> retry.value in w.store.failures
    ensures var r := AfterStore(w, env, row, retry);
            && r.Ok? && r.value == w.value
            && (w.value == CardMissing ==> Recorded(w.store, r.store, row, CARD_NOT_FOUND))
            && (w.value != CardMissing ==> Stored(w.store, r.store, w.store.txns, retry))
  {
    hide UpsertFailure, UpdateStatus, Recorded;
    UpsertRecords(w.store, env, row, CARD_NOT_FOUND);
    if retry.Some? { UpdateSets(w.store, env, retry.value, RESOLVED, 0); }
  }

  /** The answer to a message of a card in the wallet. Its key is EMAIL:: and its trimmed id. A key seen in
      this run is a duplicate; a dry run counts an insert and stores nothing; without a card row the failure
      is recorded; under the constraint a stored key is a duplicate; and otherwise the key is stored. */
  lemma Matched(s: Store, keys: set<string>, env: Env, ctx: Ctx, m: Message, last4: string, retry: Option<RowKey>)
    requires NoFaults(env) && last4 in ctx.matched && (retry.Some? ==> retry.value in s.failures)
    ensures var (r, keys1) := Process(s, keys, env, ctx, m, Parsed(last4), retry);
            var key := "EMAIL::" + Trim(m.id);
            && r.Ok? && keys1 == keys + {key}
            && (key in keys ==> r.value == Duplicate && Untouched(s, r.store))
            && (key !in keys && ctx.dry ==> r.value == Inserted && Untouched(s, r.store))
            && (key !in keys && !ctx.dry && last4 !in ctx.stored ==>
                  r.value == CardMissing && Recorded(s, r.store, RowKey(ctx.bank, m.id), CARD_NOT_FOUND))
            && (key !in keys && !ctx.dry && last4 in ctx.stored ==>
                  if ctx.unique && key in s.txns then r.value == Duplicate && Stored(s, r.store, s.txns, retry)
                  else r.value == Inserted && Stored(s, r.store, s.txns + [key], retry))
  {
    hide AfterStore, StoreTxn, Trim;
    var key, row := "EMAIL::" + Trim(m.id), RowKey(ctx.bank, m.id);
    assert Key(m) == key;
    if key !in keys && !ctx.dry {
      var w := StoreTxn(s, env, key, last4 in ctx.stored, ctx.unique);
      InsertAnswers(s, env, key, last4 in ctx.stored, ctx.unique);
      AfterInsert(w, env, row, retry);
    }
  }

  /** When only the insert fails, the failure row says so; whether the key is stored depends on whether the
      insert took effect before it raised. */
  lemma InsertFails(s: Store, keys: set<string>, env: Env, ctx: Ctx, m: Message, last4: string, retry: Option<RowKey>)
    requires last4 in ctx.matched * ctx.stored && !ctx.dry && "EMAIL::" + Trim(m.id) !in keys
    requires env(s.clock + 1) == FailsBefore || env(s.clock + 1) == FailsAfter
    requires forall n :: n != s.clock + 1 ==> env(n) == Fine
    ensures var (r, _) := Process(s, keys, env, ctx, m, Parsed(last4), retry);
            var key := "EMAIL::" + Trim(m.id);
            var taken := env(s.clock + 1) == FailsAfter && !(ctx.unique && key in s.txns);
            && r.Ok? && r.value == WriteFailed
            && Recorded(s.(txns := if taken then s.txns + [key] else s.txns), r.store, RowKey(ctx.bank, m.id), WRITE_FAILED)
  {
    hide Trim;
    var key, row := "EMAIL::" + Trim(m.id), RowKey(ctx.bank, m.id);
    assert Key(m) == key;
    var w := StoreTxn(s, env, key, true, ctx.unique);
    assert w.Ok? && w.value == WriteFailed && w.store.clock == s.clock + 2;
    assert env(s.clock + 2) == Fine && env(s.clock + 3) == Fine;
    assert UpsertFailure(w.store, env, row, WRITE_FAILED).Ok?;
  }

  // ---------------------------------------------------------------------------------------------
  // A folder
  // ---------------------------------------------------------------------------------------------

  /** Item i is the first of its trimmed id that parses to a card of the wallet. */
  ghost predicate FirstUse(items: seq<(Message, Parse)>, ctx: Ctx, i: nat) {
    && i < |items| && Uses(items[i], ctx)
    && forall j :: 0 <= j < i && Trim(items[j].0.id) == Trim(items[i].0.id) ==> !Uses(items[j], ctx)
  }

  ghost predicate Uses(item: (Message, Parse), ctx: Ctx) {
    item.1.Parsed? && item.1.last4 in ctx.matched
  }

  /** The first use of the trimmed id is of a card that has a row. */
  ghost predicate Stores(items: seq<(Message, Parse)>, ctx: Ctx, id: string) {
    exists i: nat :: FirstUse(items, ctx, i) && Trim(items[i].0.id) == id && items[i].1.last4 in ctx.stored
  }

  /** What `after` has beyond `before`. */
  function Added(before: seq<string>, after: seq<string>): seq<string> {
    if |before| <= |after| then after[|before|..] else []
  }

  lemma StoresCons(items: seq<(Message, Parse)>, ctx: Ctx, id: string)
    requires items != []
    ensures Trim(items[0].0.id) == id && Uses(items[0], ctx) ==> (Stores(items, ctx, id) <==> items[0].1.last4 in ctx.stored)
    ensures Trim(items[0].0.id) != id || !Uses(items[0], ctx) ==> (Stores(items, ctx, id) <==> Stores(items[1..], ctx, id))
  {
    hide Trim;
    if Trim(items[0].0.id) == id && Uses(items[0], ctx) {
      assert FirstUse(items, ctx, 0);
      if items[0].1.last4 in ctx.stored { assert Stores(items, ctx, id); }
    } else {
      if i: nat :| FirstUse(items, ctx, i) && Trim(items[i].0.id) == id && items[i].1.last4 in ctx.stored {
        assert FirstUse(items[1..], ctx, i - 1);
        assert Stores(items[1..], ctx, id);
      }
      if i: nat :| FirstUse(items[1..], ctx, i) && Trim(items[1..][i].0.id) == id && items[1..][i].1.last4 in ctx.stored {
        assert FirstUse(items, ctx, i + 1);
        assert Stores(items, ctx, id);
      }
    }
  }

  lemma KeyOfIs(a: string, id: string)
    ensures "EMAIL::" + Trim(a) == "EMAIL::" + id <==> Trim(a) == id
  {
    hide Trim;
    assert ("EMAIL::" + Trim(a))[7..] == Trim(a) && ("EMAIL::" + id)[7..] == id;
  }

  /** One message of a live run that no call fails: whether it adds its key, and what is seen afterwards. */
  lemma OneAdds(s: Store, keys: set<string>, env: Env, ctx: Ctx, item: (Message, Parse))
    requires NoFaults(env) && !ctx.dry
    ensures var (r, keys1) := Process(s, keys, env, ctx, item.0, item.1, None);
            var key := "EMAIL::" + Trim(item.0.id);
            && r.Ok? && keys1 == (if Uses(item, ctx) then keys + {key} else keys)
            && (r.value == Inserted <==> Uses(item, ctx) && key !in keys && item.1.last4 in ctx.stored && !(ctx.unique && key in s.txns))
            && r.store.txns == (if r.value == Inserted then s.txns + [key] else s.txns)
  {
    hide Process, Trim;
    if Uses(item, ctx) {
      Matched(s, keys, env, ctx, item.0, item.1.last4, None);
    } else {
      Unmatched(s, keys, env, ctx, item.0, item.1, None);
    }
  }

  lemma AddedThen(a: seq<string>, b: seq<string>, c: seq<string>)
    requires |a| <= |b| <= |c| && b[..|a|] == a && c[..|b|] == b
    ensures Added(a, c) == Added(a, b) + Added(b, c) && c[..|a|] == a
  {
  }

  lemma AddedOne(a: seq<string>, key: string)
    ensures Added(a, a) == [] && Added(a, a + [key]) == [key] && (a + [key])[..|a|] == a
  {
  }

  /** A live drain that no call fails ends, keeps what was stored, and counts as inserted what it adds. */
  lemma {:induction false} DrainInserts(s: Store, keys: set<string>, env: Env, ctx: Ctx, items: seq<(Message, Parse)>, st: Stats)
    requires NoFaults(env) && !ctx.dry
    ensures var d := Drain(s, keys, env, ctx, items, st);
            && d.Ok? && |s.txns| <= |d.store.txns| && d.store.txns[..|s.txns|] == s.txns
            && d.value.inserted == st.inserted + |Added(s.txns, d.store.txns)|
    decreases |items|
  {
    hide Process, NoFaults;
    if items != [] {
      OneAdds(s, keys, env, ctx, items[0]);
      AddedOne(s.txns, "EMAIL::" + Trim(items[0].0.id));
      var (r, keys1) := Process(s, keys, env, ctx, items[0].0, items[0].1, None);
      DrainInserts(r.store, keys1, env, ctx, items[1..], Count(st, r.value));
      AddedThen(s.txns, r.store.txns, Drain(s, keys, env, ctx, items, st).store.txns);
    }
  }

  /** Which trimmed ids it adds: those not seen before, not held back by the constraint, and whose first use
      is of a card that has a row. */
  lemma {:induction false} DrainAddsIff(s: Store, keys: set<string>, env: Env, ctx: Ctx, items: seq<(Message, Parse)>, st: Stats,
                                        id: string)
    requires NoFaults(env) && !ctx.dry
    ensures var key := "EMAIL::" + id;
            key in Added(s.txns, Drain(s, keys, env, ctx, items, st).store.txns) <==>
            key !in keys && !(ctx.unique && key in s.txns) && Stores(items, ctx, id)
    decreases |items|
  {
    hide Process, NoFaults, Trim, Uses, Stores, Added;
    var key := "EMAIL::" + id;
    DrainInserts(s, keys, env, ctx, items, st);
    if items == [] {
      NothingAdded(s, keys, env, ctx, st, id);
    } else {
      var own := "EMAIL::" + Trim(items[0].0.id);
      KeyOfIs(items[0].0.id, id);
      StoresCons(items, ctx, id);
      OneAdds(s, keys, env, ctx, items[0]);
      AddedOne(s.txns, own);
      var (r, keys1) := Process(s, keys, env, ctx, items[0].0, items[0].1, None);
      DrainInserts(r.store, keys1, env, ctx, items[1..], Count(st, r.value));
      DrainAddsIff(r.store, keys1, env, ctx, items[1..], Count(st, r.value), id);
      AddedThen(s.txns, r.store.txns, Drain(s, keys, env, ctx, items, st).store.txns);
    }
  }

  lemma NothingAdded(s: Store, keys: set<string>, env: Env, ctx: Ctx, st: Stats, id: string)
    ensures Added(s.txns, Drain(s, keys, env, ctx, [], st).store.txns) == [] && !Stores([], ctx, id)
  {
    hide Trim, Process;
    assert Drain(s, keys, env, ctx, [], st) == Ok(st, s);
    assert forall i: nat :: !FirstUse([], ctx, i);
  }

  /** The key of every transaction ever stored is that of some message: EMAIL:: and a trimmed id. */
  lemma {:induction false} DrainAddsKeys(s: Store, keys: set<string>, env: Env, ctx: Ctx, items: seq<(Message, Parse)>, st: Stats)
    requires NoFaults(env) && !ctx.dry
    ensures forall key <- Added(s.txns, Drain(s, keys, env, ctx, items, st).store.txns) ::
              exists item :: item in items && key == "EMAIL::" + Trim(item.0.id)
    decreases |items|
  {
    hide Process, NoFaults, Trim, Added;
    DrainInserts(s, keys, env, ctx, items, st);
    if items == [] {
      NothingAdded(s, keys, env, ctx, st, "");
    } else {
      var own := "EMAIL::" + Trim(items[0].0.id);
      OneAdds(s, keys, env, ctx, items[0]);
      AddedOne(s.txns, own);
      var (r, keys1) := Process(s, keys, env, ctx, items[0].0, items[0].1, None);
      var after := Drain(s, keys, env, ctx, items, st).store;
      DrainInserts(r.store, keys1, env, ctx, items[1..], Count(st, r.value));
      DrainAddsKeys(r.store, keys1, env, ctx, items[1..], Count(st, r.value));
      AddedThen(s.txns, r.store.txns, after.txns);
      forall key <- Added(s.txns, after.txns) ensures exists item :: item in items && key == "EMAIL::" + Trim(item.0.id) {
        if key in Added(r.store.txns, after.txns) {
          var item :| item in items[1..] && key == "EMAIL::" + Trim(item.0.id);
          assert item in items;
        } else {
          assert items[0] in items;
        }
      }
    }
  }

  lemma {:induction false} AboveKeeps(messages: seq<Message>, cutoff: Option<int>, m: Message)
    ensures multiset(Above(messages, cutoff))[m] ==
            if cutoff.Some? && m.receivedAt <= cutoff.value then 0 else multiset(messages)[m]
  {
    if messages != [] {
      AboveKeeps(messages[1..], cutoff, m);
      assert messages == [messages[0]] + messages[1..];
    }
  }

  /** What a run is responsible for: every polled mail, as often as it was polled, that is newer than the
      folder's own watermark; without one, than that of its legacy key; without either, all of it. */
  lemma DueIs(s: Store, folder: Folder, polled: seq<Message>, m: Message)
    ensures var times := multiset(Due(s, folder, polled))[m];
            if folder.bank in s.watermarks then
              times == if m.receivedAt > s.watermarks[folder.bank] then multiset(polled)[m] else 0
            else if folder.legacy.Some? && folder.legacy.value in s.watermarks then
              times == if m.receivedAt > s.watermarks[folder.legacy.value] then multiset(polled)[m] else 0
            else times == multiset(polled)[m]
  {
    hide Above;
    AboveKeeps(polled, Cutoff(s, folder), m);
  }

  /** A run that no call fails reads the window and the keys, drains what is due, and writes the watermark. */
  lemma FaultFreeParts(s: Store, env: Env, folder: Folder, ctx: Ctx, polled: seq<Message>, size: nat, parser: Parser)
    returns (start: Store)
    requires NoFaults(env) && 0 < size
    ensures start.txns == s.txns && start.failures == s.failures && start.watermarks == s.watermarks
    ensures BeforeWatermark(s, env, folder, ctx, polled, size, parser) ==
            Drain(start, Newest(s.txns, EXISTING_KEYS_LIMIT), env, ctx, Items(Due(s, folder, polled), size, parser), NO_STATS)
  {
    hide Drain, Items, Above, Newest;
    var w := ResolveWindow(s, env, folder);
    start := Read(w.store, env).store;
  }

  lemma FinishWrites(r: R<Stats>, env: Env, folder: Folder, newest: int)
    requires NoFaults(env) && r.Ok?
    ensures var f := Finish(r, env, folder, false, newest);
            && f.Ok? && f.value == r.value && f.store.txns == r.store.txns && f.store.failures == r.store.failures
            && f.store.watermarks == if newest > 0 then r.store.watermarks[folder.bank := newest] else r.store.watermarks
  {
  }

  /** The newest keys, up to ten thousand of them. */
  function Loaded(txns: seq<string>): seq<string> {
    txns[if |txns| <= 10000 then 0 else |txns| - 10000..]
  }

  lemma NewestIsLoaded(txns: seq<string>, key: string)
    ensures key in Newest(txns, EXISTING_KEYS_LIMIT) <==> key in Loaded(txns)
  {
    assert txns[0..] == txns;
  }

  /** A live run that no call fails returns, keeps what was stored, counts as inserted what it adds, and sets
      the watermark to the newest due time. It adds the key of exactly those trimmed ids that are not among
      the newest ten thousand keys, are not held back by the constraint, and whose first due mail that parses
      to a card of the wallet is of a card with a row. */
  lemma FolderStores(s: Store, env: Env, folder: Folder, ctx: Ctx, polled: seq<Message>, size: nat, parser: Parser, id: string)
    requires NoFaults(env) && 0 < size && !ctx.dry
    ensures var r := RunFolder(s, env, folder, ctx, Some(polled), size, parser);
            var due, key := Due(s, folder, polled), "EMAIL::" + id;
            && r.Ok? && |s.txns| <= |r.store.txns| && r.store.txns[..|s.txns|] == s.txns
            && r.value.inserted == |r.store.txns| - |s.txns|
            && r.store.watermarks == (if MaxReceived(due) > 0 then s.watermarks[folder.bank := MaxReceived(due)] else s.watermarks)
            && (key in Added(s.txns, r.store.txns) <==>
                key !in Loaded(s.txns) && !(ctx.unique && key in s.txns) && Stores(Items(due, size, parser), ctx, id))
  {
    hide Drain, Items, RunFolder, BeforeWatermark, Due, MaxReceived, Newest, Stores, NoFaults, Loaded, Finish, Grows;
    var due := Due(s, folder, polled);
    var keys, items := Newest(s.txns, EXISTING_KEYS_LIMIT), Items(due, size, parser);
    var start := FaultFreeParts(s, env, folder, ctx, polled, size, parser);
    var b := BeforeWatermark(s, env, folder, ctx, polled, size, parser);
    DrainInserts(start, keys, env, ctx, items, NO_STATS);
    DrainAddsIff(start, keys, env, ctx, items, NO_STATS, id);
    DrainWatermarks(start, keys, env, ctx, items, NO_STATS);
    NewestIsLoaded(s.txns, "EMAIL::" + id);
    RunIsFinish(s, env, folder, ctx, polled, size, parser);
    FinishWrites(b, env, folder, MaxReceived(due));
  }

  lemma DrainWatermarks(s: Store, keys: set<string>, env: Env, ctx: Ctx, items: seq<(Message, Parse)>, st: Stats)
    ensures Drain(s, keys, env, ctx, items, st).store.watermarks == s.watermarks
  {
    hide Drain;
    DrainGrows(s, keys, env, ctx, items, st);
  }

  /** In particular a due mail that parses to a card with a row, whose trimmed id no earlier due mail
      carries, and whose key is not stored, has its key added. */
  lemma NewMailStored(s: Store, env: Env, folder: Folder, ctx: Ctx, polled: seq<Message>, size: nat, parser: Parser, i: nat)
    requires NoFaults(env) && 0 < size && !ctx.dry && i < |Due(s, folder, polled)|
    requires Items(Due(s, folder, polled), size, parser)[i].1.Parsed?
    requires Items(Due(s, folder, polled), size, parser)[i].1.last4 in ctx.matched * ctx.stored
    requires forall j :: 0 <= j < i ==> Trim(Due(s, folder, polled)[j].id) != Trim(Due(s, folder, polled)[i].id)
    requires "EMAIL::" + Trim(Due(s, folder, polled)[i].id) !in s.txns
    ensures var r := RunFolder(s, env, folder, ctx, Some(polled), size, parser);
            r.Ok? && "EMAIL::" + Trim(Due(s, folder, polled)[i].id) in Added(s.txns, r.store.txns) && 0 < r.value.inserted
  {
    hide Items, RunFolder, Due, MaxReceived, NoFaults, Trim;
    var items, id := Items(Due(s, folder, polled), size, parser), Trim(Due(s, folder, polled)[i].id);
    assert FirstUse(items, ctx, i) && Trim(items[i].0.id) == id;
    assert Stores(items, ctx, id);
    FolderStores(s, env, folder, ctx, polled, size, parser, id);
  }

  // ---------------------------------------------------------------------------------------------
  // The counters of a folder
  // ---------------------------------------------------------------------------------------------

  /** The answers to the messages of a drain, in order, up to one that has none. */
  function Kinds(s: Store, keys: set<string>, env: Env, ctx: Ctx, items: seq<(Message, Parse)>): seq<Kind>
    decreases |items|
  {
    if items == [] then []
    else
      var (r, keys1) := Process(s, keys, env, ctx, items[0].0, items[0].1, None);
      if r.Ok? then [r.value] + Kinds(r.store, keys1, env, ctx, items[1..]) else []
  }

  /** Each counter grew by the number of answers of its kind. */
  ghost predicate Tallied(before: Stats, after: Stats, kinds: multiset<Kind>) {
    && after.inserted == before.inserted + kinds[Inserted]
    && after.duplicates == before.duplicates + kinds[Duplicate]
    && after.parseMiss == before.parseMiss + kinds[ParseMiss]
    && after.parseErrors == before.parseErrors + kinds[ParseError]
    && after.cardMissing == before.cardMissing + kinds[CardMissing]
    && after.writeFailures == before.writeFailures + kinds[WriteFailed]
  }

  lemma TalliedCons(st: Stats, kind: Kind, after: Stats, rest: multiset<Kind>)
    requires Tallied(Count(st, kind), after, rest)
    ensures Tallied(st, after, multiset{kind} + rest)
  {
  }

  lemma TalliedNone(st: Stats)
    ensures Tallied(st, st, multiset([]))
  {
  }

  /** Each counter of a drain that ends is the number of its answers of that kind. */
  lemma {:induction false} DrainTallies(s: Store, keys: set<string>, env: Env, ctx: Ctx, items: seq<(Message, Parse)>, st: Stats)
    ensures var d, kinds := Drain(s, keys, env, ctx, items, st), Kinds(s, keys, env, ctx, items);
            d.Ok? ==> |kinds| == |items| && Tallied(st, d.value, multiset(kinds))
    decreases |items|
  {
    hide Process, Tallied, Count;
    if items == [] {
      TalliedNone(st);
    } else {
      var (r, keys1) := Process(s, keys, env, ctx, items[0].0, items[0].1, None);
      if r.Ok? {
        DrainTallies(r.store, keys1, env, ctx, items[1..], Count(st, r.value));
        var d, rest := Drain(s, keys, env, ctx, items, st), Kinds(r.store, keys1, env, ctx, items[1..]);
        assert multiset([r.value] + rest) == multiset{r.value} + multiset(rest);
        if d.Ok? { TalliedCons(st, r.value, d.value, multiset(rest)); }
      }
    }
  }

  // ---------------------------------------------------------------------------------------------
  // A replay
  // ---------------------------------------------------------------------------------------------

  /** The replayed row afterwards: one more attempt, and this status. */
  ghost predicate SettledAs(s: Store, after: Store, row: RowKey, status: Status) {
    row in s.failures && row in after.failures
    && after.failures[row].status == status && after.failures[row].attempts == s.failures[row].attempts + 1
  }

  /** Whether the code gets as far as a stored transaction, or one it takes for stored. */
  ghost predicate Reaches(keys: set<string>, ctx: Ctx, item: RetryItem) {
    && item.parse.Parsed? && item.parse.last4 in ctx.matched
    && ("EMAIL::" + Trim(item.row.messageId) in keys || item.parse.last4 in ctx.stored)
  }

  lemma ReplayProcess(s: Store, keys: set<string>, env: Env, item: RetryItem)
    requires NoFaults(env) && item.config.Some? && item.fetch.Found? && item.row in s.failures
    ensures var ctx, m := item.config.value.(dry := false), Message(item.row.messageId, item.fetch.receivedAt);
            var (r, _) := Process(s, keys, env, ctx, m, item.parse, Some(item.row));
            && r.Ok? && (IsResolved(r.value) <==> Reaches(keys, item.config.value, item))
            && item.row in r.store.failures && r.store.failures[item.row].attempts == s.failures[item.row].attempts
            && r.store.txns == if r.value == Inserted then s.txns + ["EMAIL::" + Trim(item.row.messageId)] else s.txns
  {
    hide Process, Trim;
    var ctx, m := item.config.value.(dry := false), Message(item.row.messageId, item.fetch.receivedAt);
    ProcessKeepsRows(s, keys, env, ctx, m, item.parse, Some(item.row));
    if item.parse.Parsed? && item.parse.last4 in ctx.matched {
      Matched(s, keys, env, ctx, m, item.parse.last4, Some(item.row));
    } else {
      Unmatched(s, keys, env, ctx, m, item.parse, Some(item.row));
    }
  }

  /** How a live replay that no call fails settles one failure. It ends RESOLVED, and is counted so, exactly
      when its mail is found, parses to a card of the wallet, and is stored, or taken for stored because its
      key was seen; otherwise it ends OPEN, counted as not found when the mail is gone. */
  lemma ReplaySettles(s: Store, keys: set<string>, env: Env, item: RetryItem)
    requires NoFaults(env) && item.row in s.failures
    ensures var r := RetryOne(s, keys, env, false, item).0;
            var outcome := OutcomeOf(s, keys, env, false, item);
            && (item.config.None? ==> r.Ok? && SettledAs(s, r.store, item.row, OPEN) && outcome == StillOpen)
            && (item.config.Some? && item.fetch.Missing? ==> r.Ok? && SettledAs(s, r.store, item.row, OPEN) && outcome == NotFound)
            && (item.config.Some? && item.fetch.FetchThrows? ==> r.Threw? && SettledAs(s, r.store, item.row, RETRYING))
            && (item.config.Some? && item.fetch.Found? ==>
                  && r.Ok?
                  && (Reaches(keys, item.config.value, item) ==> SettledAs(s, r.store, item.row, RESOLVED) && outcome == Resolved)
                  && (!Reaches(keys, item.config.value, item) ==> SettledAs(s, r.store, item.row, OPEN) && outcome == StillOpen))
  {
    hide Process, UpdateStatus, Reaches, NoFaults;
    UpdateSets(s, env, item.row, RETRYING, 1);
    var s1 := UpdateStatus(s, env, item.row, RETRYING, 1).store;
    if item.config.None? || item.fetch.Missing? {
      UpdateSets(s1, env, item.row, OPEN, 0);
    } else if item.fetch.Found? {
      ReplayProcess(s1, keys, env, item);
      var ctx, m := item.config.value.(dry := false), Message(item.row.messageId, item.fetch.receivedAt);
      var (r, _) := Process(s1, keys, env, ctx, m, item.parse, Some(item.row));
      UpdateSets(r.store, env, item.row, if IsResolved(r.value) then RESOLVED else OPEN, 0);
    }
  }

  /** An ignore that no call fails sets every selected row aside, and nothing else. */
  lemma {:induction false} IgnoreSets(s: Store, env: Env, rows: seq<RowKey>)
    requires NoFaults(env) && forall row <- rows :: row in s.failures
    ensures var r := IgnoreAll(s, env, rows);
            && r.Ok? && r.store.txns == s.txns && r.store.watermarks == s.watermarks
            && r.store.failures.Keys == s.failures.Keys
            && forall k <- s.failures.Keys ::
                 r.store.failures[k] == if k in rows then s.failures[k].(status := IGNORED) else s.failures[k]
    decreases |rows|
  {
    hide UpdateStatus, NoFaults;
    if rows != [] {
      assert rows == [rows[0]] + rows[1..];
      UpdateSets(s, env, rows[0], IGNORED, 0);
      IgnoreSets(UpdateStatus(s, env, rows[0], IGNORED, 0).store, env, rows[1..]);
    }
  }

  /** The positions that a tally is about and that have this outcome. */
  function Positions(items: seq<RetryItem>, outcomes: seq<Outcome>, bank: Option<string>, outcome: Outcome): set<nat>
    requires |outcomes| == |items|
  {
    set i: nat | i < |items| && (bank.None? || items[i].row.bank == bank.value) && outcomes[i] == outcome
  }

  lemma PositionsLast(items: seq<RetryItem>, outcomes: seq<Outcome>, bank: Option<string>, outcome: Outcome)
    requires |outcomes| == |items| && items != []
    ensures var n := |items| - 1;
            Positions(items, outcomes, bank, outcome) ==
            Positions(items[..n], outcomes[..n], bank, outcome)
            + (if (bank.None? || items[n].row.bank == bank.value) && outcomes[n] == outcome then {n} else {})
    ensures |items| - 1 !in Positions(items[..|items| - 1], outcomes[..|items| - 1], bank, outcome)
  {
    var n := |items| - 1;
    assert forall i :: 0 <= i < n ==> items[..n][i] == items[i] && outcomes[..n][i] == outcomes[i];
  }

  lemma WithOne<T>(s: set<T>, x: T)
    requires x !in s
    ensures |s + {x}| == |s| + 1 && |s + {}| == |s|
  {
    assert s + {} == s;
  }

  lemma PositionsSnoc(items: seq<RetryItem>, outcomes: seq<Outcome>, bank: Option<string>, outcome: Outcome)
    requires |outcomes| == |items| && items != []
    ensures var n := |items| - 1;
            |Positions(items, outcomes, bank, outcome)| ==
            |Positions(items[..n], outcomes[..n], bank, outcome)|
            + (if (bank.None? || items[n].row.bank == bank.value) && outcomes[n] == outcome then 1 else 0)
  {
    hide Positions;
    var n := |items| - 1;
    PositionsLast(items, outcomes, bank, outcome);
    WithOne(Positions(items[..n], outcomes[..n], bank, outcome), n);
  }

  /** Each counter of a replay, overall or of one bank, is the number of failures with that outcome. */
  lemma {:induction false} TallyIs(items: seq<RetryItem>, outcomes: seq<Outcome>, bank: Option<string>)
    requires |outcomes| == |items|
    ensures var t := TallyOf(items, outcomes, bank);
            && t.resolved == |Positions(items, outcomes, bank, Resolved)|
            && t.stillOpen == |Positions(items, outcomes, bank, StillOpen)|
            && t.notFoundInGmail == |Positions(items, outcomes, bank, NotFound)|
  {
    hide Positions;
    if items == [] {
      NoPositions(bank);
    } else {
      var n := |items| - 1;
      TallyIs(items[..n], outcomes[..n], bank);
      PositionsSnoc(items, outcomes, bank, Resolved);
      PositionsSnoc(items, outcomes, bank, StillOpen);
      PositionsSnoc(items, outcomes, bank, NotFound);
    }
  }

  lemma NoPositions(bank: Option<string>)
    ensures forall outcome :: Positions([], [], bank, outcome) == {}
  {
  }
}
