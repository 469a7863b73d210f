/**
 The import service over its store: the try/catch of one message, the chunked drain of a folder, and
 the replay loop with its counters, proved to be the runs of CcTxnImport and ImportHistory.
 */
module ImportServices {
  import opened Wrappers
  import opened CcTxnImport
  import opened ImportHistory

  /** How a call ended, seen from its caller. */
  datatype Ended<+T> = Returned(value: T) | Raised | Dead

  function Ending<T>(r: R<T>): Ended<T> {
    match r
    case Ok(value, _) => Returned(value)
    case Threw(_) => Raised
    case Died(_) => Dead
  }

  /** Consecutive slices of `size` messages. */
  function Chunks(messages: seq<Message>, size: nat): seq<seq<Message>>
    requires 0 < size
    decreases |messages|
  {
    if messages == [] then []
    else if |messages| <= size then [messages]
    else [messages[..size]] + Chunks(messages[size..], size)
  }

  function ItemsOf(chunks: seq<seq<Message>>, parser: Parser): seq<(Message, Parse)> {
    if chunks == [] then [] else ParseChunk(chunks[0], parser) + ItemsOf(chunks[1..], parser)
  }

  function Concat(chunks: seq<seq<Message>>): seq<Message> {
    if chunks == [] then [] else chunks[0] + Concat(chunks[1..])
  }

  /** Chunking loses nothing and reorders nothing. */
  lemma {:induction false} ChunksCover(messages: seq<Message>, size: nat)
    requires 0 < size
    ensures Concat(Chunks(messages, size)) == messages
    decreases |messages|
  {
    if messages == [] {
    } else if |messages| <= size {
      assert [messages][1..] == [];
    } else {
      ChunksCover(messages[size..], size);
      var rest := Chunks(messages[size..], size);
      assert ([messages[..size]] + rest)[1..] == rest;
      assert messages[..size] + messages[size..] == messages;
    }
  }

  lemma NothingParsed(parser: Parser)
    ensures ParseChunk([], parser) == []
  {
  }

  lemma {:induction false} ChunksItems(messages: seq<Message>, size: nat, parser: Parser)
    requires 0 < size
    ensures ItemsOf(Chunks(messages, size), parser) == Items(messages, size, parser)
    decreases |messages|
  {
    hide ParseChunk;
    if messages == [] {
      NothingParsed(parser);
    } else if |messages| <= size {
      assert [messages][1..] == [] && ItemsOf([], parser) == [];
    } else {
      ChunksItems(messages[size..], size, parser);
      var rest := Chunks(messages[size..], size);
      assert ([messages[..size]] + rest)[1..] == rest;
    }
  }

  /** No chunk is empty or larger than the batch size. */
  lemma {:induction false} ChunksBounded(messages: seq<Message>, size: nat)
    requires 0 < size
    ensures forall c <- Chunks(messages, size) :: 0 < |c| <= size
    decreases |messages|
  {
    if |messages| > size {
      ChunksBounded(messages[size..], size);
    }
  }

  lemma Multiple(n: nat, size: nat)
    requires 0 < n && 0 < size
    ensures n * size == (n - 1) * size + size && 0 <= (n - 1) * size
  {
  }

  lemma ChunksCons(first: seq<Message>, rest: seq<Message>, size: nat)
    requires 0 < size && |first| == size && 0 < |rest|
    ensures Chunks(first + rest, size) == [first] + Chunks(rest, size)
  {
    assert (first + rest)[..size] == first && (first + rest)[size..] == rest;
  }

  lemma ChunksOne(chunk: seq<Message>, size: nat)
    requires 0 < |chunk| <= size
    ensures Chunks(chunk, size) == [chunk]
  {
  }

  lemma ChunksSnoc(full: seq<Message>, n: nat, last: seq<Message>, size: nat)
    requires 0 < |last| <= size && |full| == n * size
    ensures Chunks(full + last, size) == Chunks(full, size) + [last]
    decreases n
  {
    hide Chunks;
    if n == 0 {
      assert full == [] && full + last == last;
      NoChunks(size);
      ChunksOne(last, size);
    } else {
      Multiple(n, size);
      var first, rest := full[..size], full[size..];
      assert full == first + rest && full + last == first + (rest + last);
      ChunksSnoc(rest, n - 1, last, size);
      ChunksCons(first, rest + last, size);
      if rest == [] {
        NoChunks(size);
        ChunksOne(first, size);
        assert full == first && rest + last == last;
        ChunksOne(last, size);
      } else {
        ChunksCons(first, rest, size);
      }
    }
  }

  lemma NoChunks(size: nat)
    requires 0 < size
    ensures Chunks([], size) == []
  {
  }

  lemma ChunkStep(messages: seq<Message>, i: nat, n: nat, end: nat, size: nat)
    requires 0 < size && i < end <= |messages| && end <= i + size && i == n * size
    ensures Chunks(messages[..end], size) == Chunks(messages[..i], size) + [messages[i..end]]
    ensures i + size == (n + 1) * size
  {
    hide Chunks;
    Multiple(n + 1, size);
    ChunksSnoc(messages[..i], n, messages[i..end], size);
    assert messages[..end] == messages[..i] + messages[i..end];
  }

  method ChunkMessages(messages: seq<Message>, size: nat) returns (chunks: seq<seq<Message>>)
    requires 0 < size
    ensures chunks == Chunks(messages, size)
    ensures Concat(chunks) == messages
    ensures forall c <- chunks :: 0 < |c| <= size
  {
    hide Chunks, Concat;
    NoChunks(size);
    chunks := [];
    var i := 0;
    ghost var n := 0;
    while i < |messages|
      invariant 0 <= i <= |messages|
      invariant i == |messages| || i == n * size
      invariant chunks == Chunks(messages[..i], size)
    {
      var end := if i + size <= |messages| then i + size else |messages|;
      ChunkStep(messages, i, n, end, size);
      n := n + 1;
      chunks := chunks + [messages[i..end]];
      i := end;
    }
    assert messages[..|messages|] == messages;
    ChunksCover(messages, size);
    ChunksBounded(messages, size);
  }

  // ---------------------------------------------------------------------------------------------
  // The counters of a replay
  // ---------------------------------------------------------------------------------------------

  datatype Outcome = Resolved | StillOpen | NotFound

  datatype Tally = Tally(attempted: nat, resolved: nat, stillOpen: nat, notFoundInGmail: nat)

  const NO_TALLY := Tally(0, 0, 0, 0)

  function Add(t: Tally, outcome: Outcome): Tally {
    match outcome
    case Resolved => t.(attempted := t.attempted + 1, resolved := t.resolved + 1)
    case StillOpen => t.(attempted := t.attempted + 1, stillOpen := t.stillOpen + 1)
    case NotFound => t.(attempted := t.attempted + 1, notFoundInGmail := t.notFoundInGmail + 1)
  }

  /** What one replayed failure is counted under. */
  function OutcomeOf(s: Store, keys: set<string>, env: Env, dry: bool, item: RetryItem): Outcome {
    if item.config.None? then StillOpen
    else if item.fetch.Missing? then NotFound
    else if item.fetch.FetchThrows? then StillOpen
    else
      var s1 := MarkUnlessDry(s, env, dry, item.row, RETRYING, 1).store;
      var m := Message(item.row.messageId, item.fetch.receivedAt);
      var (r, _) := Process(s1, keys, env, item.config.value.(dry := dry), m, item.parse, Some(item.row));
      if r.Ok? && IsResolved(r.value) then Resolved else StillOpen
  }

  function Outcomes(s: Store, keys: set<string>, env: Env, dry: bool, items: seq<RetryItem>): (outcomes: seq<Outcome>)
    ensures |outcomes| <= |items|
    decreases |items|
  {
    if items == [] then []
    else
      var (r, keys1) := RetryOne(s, keys, env, dry, items[0]);
      [OutcomeOf(s, keys, env, dry, items[0])] + (if r.Ok? then Outcomes(r.store, keys1, env, dry, items[1..]) else [])
  }

  /** The outcomes of a replay, after its three reads. */
  function ReplayOutcomes(s: Store, env: Env, dry: bool, items: seq<RetryItem>): (outcomes: seq<Outcome>)
    ensures |outcomes| <= |items|
  {
    Outcomes(s.(clock := s.clock + 3), Newest(s.txns, EXISTING_KEYS_LIMIT), env, dry, items)
  }

  /** The counters over all failures, or over those of one bank. */
  function TallyOf(items: seq<RetryItem>, outcomes: seq<Outcome>, bank: Option<string>): Tally
    requires |outcomes| == |items|
  {
    if items == [] then NO_TALLY
    else
      var n := |items| - 1;
      var front := TallyOf(items[..n], outcomes[..n], bank);
      if bank.Some? && items[n].row.bank != bank.value then front else Add(front, outcomes[n])
  }

  function BanksOf(items: seq<RetryItem>): set<string> {
    set item | item in items :: item.row.bank
  }

  lemma NothingTallied()
    ensures forall bank :: TallyOf([], [], bank) == NO_TALLY
  {
  }

  lemma NoBanks()
    ensures PerBank(map[], [], [])
  {
  }

  lemma TallySnoc(items: seq<RetryItem>, outcomes: seq<Outcome>, item: RetryItem, outcome: Outcome)
    requires |outcomes| == |items|
    ensures forall bank :: TallyOf(items + [item], outcomes + [outcome], bank) ==
                           if bank.Some? && item.row.bank != bank.value then TallyOf(items, outcomes, bank)
                           else Add(TallyOf(items, outcomes, bank), outcome)
  {
    assert (items + [item])[..|items|] == items && (outcomes + [outcome])[..|items|] == outcomes;
  }

  lemma {:induction false} TallyUnused(items: seq<RetryItem>, outcomes: seq<Outcome>, bank: string)
    requires |outcomes| == |items| && bank !in BanksOf(items)
    ensures TallyOf(items, outcomes, Some(bank)) == NO_TALLY
  {
    if items != [] {
      var n := |items| - 1;
      assert items[n] in items;
      assert forall item <- items[..n] :: item in items;
      TallyUnused(items[..n], outcomes[..n], bank);
    }
  }

  /** One entry per bank that occurs, holding its counters. */
  ghost predicate PerBank(breakdown: map<string, Tally>, items: seq<RetryItem>, outcomes: seq<Outcome>)
    requires |outcomes| == |items|
  {
    breakdown.Keys == BanksOf(items) && forall bank <- breakdown.Keys :: breakdown[bank] == TallyOf(items, outcomes, Some(bank))
  }

  lemma PerBankStep(breakdown: map<string, Tally>, items: seq<RetryItem>, outcomes: seq<Outcome>, item: RetryItem, outcome: Outcome)
    requires |outcomes| == |items| && PerBank(breakdown, items, outcomes)
    ensures var bank := item.row.bank;
            PerBank(breakdown[bank := Add(if bank in breakdown then breakdown[bank] else NO_TALLY, outcome)],
                    items + [item], outcomes + [outcome])
  {
    hide TallyOf;
    var bank := item.row.bank;
    TallySnoc(items, outcomes, item, outcome);
    if bank !in breakdown { TallyUnused(items, outcomes, bank); }
    assert BanksOf(items + [item]) == BanksOf(items) + {bank} by {
      forall x ensures x in BanksOf(items + [item]) <==> x in BanksOf(items) || x == bank {
        if x == bank { assert (items + [item])[|items|] == item; }
        if x in BanksOf(items) { var y :| y in items && y.row.bank == x; assert y in items + [item]; }
      }
    }
  }

  /** The counters partition what was attempted, overall and bank by bank. */
  lemma {:induction false} TallyPartitions(items: seq<RetryItem>, outcomes: seq<Outcome>, bank: Option<string>)
    requires |outcomes| == |items|
    ensures var t := TallyOf(items, outcomes, bank);
            && t.attempted == t.resolved + t.stillOpen + t.notFoundInGmail
            && (bank.None? ==> t.attempted == |items|)
  {
    if items != [] {
      var n := |items| - 1;
      TallyPartitions(items[..n], outcomes[..n], bank);
    }
  }

  lemma RetryAllStep(s: Store, keys: set<string>, env: Env, dry: bool, items: seq<RetryItem>)
    requires items != []
    ensures var (r, keys1) := RetryOne(s, keys, env, dry, items[0]);
            && RetryAll(s, keys, env, dry, items) == (if r.Ok? then RetryAll(r.store, keys1, env, dry, items[1..]) else r)
            && (r.Ok? ==> Outcomes(s, keys, env, dry, items) ==
                          [OutcomeOf(s, keys, env, dry, items[0])] + Outcomes(r.store, keys1, env, dry, items[1..]))
  {
    hide RetryOne, OutcomeOf;
  }

  lemma RetryAllDone(s: Store, keys: set<string>, env: Env, dry: bool)
    ensures RetryAll(s, keys, env, dry, []) == Ok((), s) && Outcomes(s, keys, env, dry, []) == []
  {
  }

  class CcTxnImportService {
    var store: Store
    const env: Env

    constructor (store: Store, env: Env)
      ensures this.store == store && this.env == env
    {
      this.store, this.env := store, env;
    }

    /** One database call that would leave `after`. */
    method Call(after: Store) returns (e: Ended<()>)
      modifies this
      ensures e == Ending(Write(old(store), env, after))
      ensures store == Write(old(store), env, after).store
    {
      var tick := store.clock;
      match env(tick)
      case Fine => store := after.(clock := tick + 1); return Returned(());
      case FailsBefore => store := store.(clock := tick + 1); return Raised;
      case FailsAfter => store := after.(clock := tick + 1); return Raised;
      case Dies => store := store.(clock := tick + 1); return Dead;
    }

    method UpsertFailure(row: RowKey, failureType: FailureType) returns (e: Ended<()>)
      modifies this
      ensures e == Ending(CcTxnImport.UpsertFailure(old(store), env, row, failureType))
      ensures store == CcTxnImport.UpsertFailure(old(store), env, row, failureType).store
    {
      e := Call(store);
      if !e.Returned? {
        return;
      }
      if row !in store.failures {
        e := Call(SetRow(store, row, FailureRow(OPEN, 1, failureType)));
      } else {
        e := Call(SetRow(store, row, store.failures[row].(status := OPEN, failureType := failureType)));
      }
    }

    method UpdateStatus(row: RowKey, status: Status, extraAttempts: nat) returns (e: Ended<()>)
      modifies this
      ensures e == Ending(CcTxnImport.UpdateStatus(old(store), env, row, status, extraAttempts))
      ensures store == CcTxnImport.UpdateStatus(old(store), env, row, status, extraAttempts).store
    {
      if row !in store.failures {
        return Raised;
      }
      var value := store.failures[row];
      e := Call(SetRow(store, row, value.(status := status, attempts := value.attempts + extraAttempts)));
    }

    method UpsertTransaction(key: string, hasCard: bool, unique: bool) returns (e: Ended<Kind>)
      modifies this
      ensures e == Ending(StoreTxn(old(store), env, key, hasCard, unique))
      ensures store == StoreTxn(old(store), env, key, hasCard, unique).store
    {
      var found := Call(store);
      if found.Raised? {
        return Raised;
      }
      if found.Dead? {
        return Dead;
      }
      if !hasCard {
        return Returned(CardMissing);
      }
      if unique && key in store.txns {
        var refused := Call(store);
        return match refused case Returned(_) => Returned(Duplicate) case Raised => Returned(WriteFailed) case Dead => Dead;
      }
      var created := Call(store.(txns := store.txns + [key]));
      return match created case Returned(_) => Returned(Inserted) case Raised => Returned(WriteFailed) case Dead => Dead;
    }

    /** The failure row a message leaves, and the outcome it is counted under. */
    method Record(row: RowKey, failureType: FailureType, kind: Kind) returns (e: Ended<Kind>)
      modifies this
      ensures e == Ending(Then(CcTxnImport.UpsertFailure(old(store), env, row, failureType), kind))
      ensures store == CcTxnImport.UpsertFailure(old(store), env, row, failureType).store
    {
      var f := UpsertFailure(row, failureType);
      return match f case Returned(_) => Returned(kind) case Raised => Raised case Dead => Dead;
    }

    method TryMessage(existingKeys: set<string>, ctx: Ctx, message: Message, parse: Parse, retry: Option<RowKey>)
      returns (e: Ended<Kind>, keys: set<string>)
      modifies this
      ensures var (r, after) := Attempt(old(store), existingKeys, env, ctx, message, parse, retry);
              e == Ending(r) && store == r.store && keys == after
    {
      keys := existingKeys;
      var row := RowKey(ctx.bank, message.id);
      if parse.Throws? {
        return Raised, keys;
      }
      if parse.Miss? {
        e := Record(row, PARSE_MISS, ParseMiss);
        return;
      }
      if parse.last4 !in ctx.matched {
        e := Record(row, CARD_NOT_FOUND, CardMissing);
        return;
      }
      var dedupeKey := Key(message);
      if dedupeKey in keys {
        return Returned(Duplicate), keys;
      }
      keys := keys + {dedupeKey};
      if ctx.dry {
        return Returned(Inserted), keys;
      }
      e := UpsertTransaction(dedupeKey, parse.last4 in ctx.stored, ctx.unique);
      if !e.Returned? {
        return;
      }
      var kind := e.value;
      if kind.CardMissing? {
        e := Record(row, CARD_NOT_FOUND, CardMissing);
      } else if kind.WriteFailed? {
        e := Record(row, WRITE_FAILED, WriteFailed);
      } else if retry.Some? {
        var m := UpdateStatus(retry.value, RESOLVED, 0);
        e := match m case Returned(_) => Returned(kind) case Raised => Raised case Dead => Dead;
      }
    }

    method ProcessMessage(existingKeys: set<string>, ctx: Ctx, message: Message, parse: Parse, retry: Option<RowKey>)
      returns (e: Ended<Kind>, keys: set<string>)
      modifies this
      ensures var (r, after) := Process(old(store), existingKeys, env, ctx, message, parse, retry);
              e == Ending(r) && store == r.store && keys == after
    {
      e, keys := TryMessage(existingKeys, ctx, message, parse, retry);
      if e.Raised? {
        e := Record(RowKey(ctx.bank, message.id), PARSE_ERROR, ParseError);
      }
    }

    method ResolveWindow(folder: Folder) returns (e: Ended<Option<int>>)
      modifies this
      ensures e == Ending(CcTxnImport.ResolveWindow(old(store), env, folder))
      ensures store == CcTxnImport.ResolveWindow(old(store), env, folder).store
    {
      var own := Call(store);
      if own.Raised? { return Raised; }
      if own.Dead? { return Dead; }
      if folder.bank in store.watermarks {
        return Returned(Some(store.watermarks[folder.bank]));
      }
      if folder.legacy.None? {
        return Returned(None);
      }
      var legacy := Call(store);
      if legacy.Raised? { return Raised; }
      if legacy.Dead? { return Dead; }
      if folder.legacy.value in store.watermarks {
        return Returned(Some(store.watermarks[folder.legacy.value]));
      }
      return Returned(None);
    }

    /** Drains one batch; `rest` is what later batches hold. */
    method DrainChunk(ghost rest: seq<(Message, Parse)>, keys0: set<string>, ctx: Ctx, chunk: seq<Message>, parser: Parser,
                      st0: Stats, max0: int)
      returns (e: Ended<()>, keys: set<string>, st: Stats, newest: int)
      requires 0 <= max0
      modifies this
      ensures var all := Drain(old(store), keys0, env, ctx, ParseChunk(chunk, parser) + rest, st0);
              if e.Returned? then all == Drain(store, keys, env, ctx, rest, st)
              else Ending(all) == (if e.Raised? then Raised else Dead) && store == all.store
      ensures e.Returned? ==> newest == Max(max0, MaxReceived(chunk))
    {
      hide Drain, Process, MaxReceived;
      NothingNewer();
      keys, st, newest := keys0, st0, max0;
      ghost var items := ParseChunk(chunk, parser) + rest;
      for j := 0 to |chunk|
        invariant Drain(old(store), keys0, env, ctx, items, st0) == Drain(store, keys, env, ctx, items[j..], st)
        invariant newest == Max(max0, MaxReceived(chunk[..j]))
      {
        var message := chunk[j];
        MaxSnoc(chunk[..j], message);
        assert chunk[..j + 1] == chunk[..j] + [message];
        newest := Max(newest, message.receivedAt);
        assert items[j..][0] == (message, parser(chunk, message)) && items[j..][1..] == items[j + 1..];
        DrainStep(store, keys, env, ctx, items[j..], st);
        var outcome: Ended<Kind>;
        outcome, keys := ProcessMessage(keys, ctx, message, parser(chunk, message), None);
        if outcome.Raised? {
          return Raised, keys, st, newest;
        }
        if outcome.Dead? {
          return Dead, keys, st, newest;
        }
        st := Count(st, outcome.value);
      }
      assert items[|chunk|..] == rest;
      assert chunk[..|chunk|] == chunk;
      e := Returned(());
    }

    /** The drain of all due messages, batch by batch. */
    method DrainMessages(keys0: set<string>, ctx: Ctx, messages: seq<Message>, size: nat, parser: Parser)
      returns (e: Ended<()>, st: Stats, newest: int)
      requires 0 < size
      modifies this
      ensures var all := Drain(old(store), keys0, env, ctx, Items(messages, size, parser), NO_STATS);
              if e.Returned? then all == Ok(st, store)
              else Ending(all) == (if e.Raised? then Raised else Dead) && store == all.store
      ensures e.Returned? ==> newest == MaxReceived(messages)
    {
      hide Drain, Items, ParseChunk, MaxReceived, Chunks;
      var keys := keys0;
      st, newest := NO_STATS, 0;
      var chunks := ChunkMessages(messages, size);
      ChunksItems(messages, size, parser);
      ghost var all := Drain(store, keys, env, ctx, Items(messages, size, parser), NO_STATS);
      assert chunks[0..] == chunks;
      for i := 0 to |chunks|
        invariant all == Drain(store, keys, env, ctx, ItemsOf(chunks[i..], parser), st)
        invariant 0 <= newest && Max(newest, MaxReceived(Concat(chunks[i..]))) == MaxReceived(messages)
      {
        ghost var rest := ItemsOf(chunks[i + 1..], parser);
        assert chunks[i..][0] == chunks[i] && chunks[i..][1..] == chunks[i + 1..];
        MaxConcat(chunks[i], Concat(chunks[i + 1..]));
        e, keys, st, newest := DrainChunk(rest, keys, ctx, chunks[i], parser, st, newest);
        if !e.Returned? { return; }
      }
      assert chunks[|chunks|..] == [];
      DrainedAll(store, keys, env, ctx, st);
      e := Returned(());
    }

    method RunImportForBank(folder: Folder, ctx: Ctx, polled: Option<seq<Message>>, size: nat, parser: Parser)
      returns (e: Ended<Stats>)
      requires 0 < size
      modifies this
      ensures e == Ending(RunFolder(old(store), env, folder, ctx, polled, size, parser))
      ensures store == RunFolder(old(store), env, folder, ctx, polled, size, parser).store
    {
      hide Drain, Items, MaxReceived, Above, Newest, CcTxnImport.ResolveWindow;
      var window := ResolveWindow(folder);
      if window.Raised? { return Raised; }
      if window.Dead? { return Dead; }
      if polled.None? {
        return Raised;
      }
      var messages := Above(polled.value, window.value);
      var loaded := Call(store);
      if loaded.Raised? { return Raised; }
      if loaded.Dead? { return Dead; }
      var drained, st, newest := DrainMessages(Newest(store.txns, EXISTING_KEYS_LIMIT), ctx, messages, size, parser);
      if drained.Raised? { return Raised; }
      if drained.Dead? { return Dead; }
      if !ctx.dry && newest > 0 {
        var moved := Call(store.(watermarks := store.watermarks[folder.bank := newest]));
        if moved.Raised? { return Raised; }
        if moved.Dead? { return Dead; }
      }
      return Returned(st);
    }

    /** The replay loop, with its counters overall and per bank. */
    method RetryFailures(dry: bool, items: seq<RetryItem>) returns (e: Ended<()>, total: Tally, breakdown: map<string, Tally>)
      modifies this
      ensures e == Ending(Retry(old(store), env, dry, items))
      ensures store == Retry(old(store), env, dry, items).store
      ensures e.Returned? ==>
                var outcomes := ReplayOutcomes(old(store), env, dry, items);
                && |outcomes| == |items|
                && total == TallyOf(items, outcomes, None)
                && PerBank(breakdown, items, outcomes)
    {
      hide RetryAll, RetryOne, Outcomes, OutcomeOf, TallyOf, PerBank;
      total, breakdown := NO_TALLY, map[];
      var selected := Call(store);
      if selected.Raised? { e := Raised; return; }
      if selected.Dead? { e := Dead; return; }
      var loaded := Call(store);
      if loaded.Raised? { e := Raised; return; }
      if loaded.Dead? { e := Dead; return; }
      var cards := Call(store);
      if cards.Raised? { e := Raised; return; }
      if cards.Dead? { e := Dead; return; }
      var keys := Newest(store.txns, EXISTING_KEYS_LIMIT);
      ghost var all := RetryAll(store, keys, env, dry, items);
      ghost var outcomes := Outcomes(store, keys, env, dry, items);
      ghost var done: seq<Outcome> := [];
      NothingTallied();
      NoBanks();
      for i := 0 to |items|
        invariant all == RetryAll(store, keys, env, dry, items[i..])
        invariant |done| == i && outcomes == done + Outcomes(store, keys, env, dry, items[i..])
        invariant total == TallyOf(items[..i], done, None)
        invariant PerBank(breakdown, items[..i], done)
      {
        var item := items[i];
        assert items[i..][0] == item && items[i..][1..] == items[i + 1..] && items[..i + 1] == items[..i] + [item];
        RetryAllStep(store, keys, env, dry, items[i..]);
        ghost var outcome := OutcomeOf(store, keys, env, dry, item);
        var one: Ended<Option<Kind>>;
        one, keys := RetryOneFailure(dry, keys, item);
        if one.Raised? { e := Raised; return; }
        if one.Dead? { e := Dead; return; }
        var counted :=
          match one.value
          case Some(kind) => if IsResolved(kind) then Resolved else StillOpen
          case None => if item.config.None? then StillOpen else NotFound;
        TallySnoc(items[..i], done, item, outcome);
        PerBankStep(breakdown, items[..i], done, item, outcome);
        total := Add(total, counted);
        breakdown := breakdown[item.row.bank := Add(if item.row.bank in breakdown then breakdown[item.row.bank] else NO_TALLY, counted)];
        done := done + [outcome];
      }
      assert items[|items|..] == [] && items[..|items|] == items;
      RetryAllDone(store, keys, env, dry);
      assert done + [] == done;
      e := Returned(());
    }

    method Mark(dry: bool, row: RowKey, status: Status, extra: nat) returns (e: Ended<()>)
      modifies this
      ensures e == Ending(MarkUnlessDry(old(store), env, dry, row, status, extra))
      ensures store == MarkUnlessDry(old(store), env, dry, row, status, extra).store
    {
      if dry {
        return Returned(());
      }
      e := UpdateStatus(row, status, extra);
    }

    /** One failure; None when it never reached the parsers. */
    method RetryOneFailure(dry: bool, existingKeys: set<string>, item: RetryItem) returns (e: Ended<Option<Kind>>, keys: set<string>)
      modifies this
      ensures var (r, after) := RetryOne(old(store), existingKeys, env, dry, item);
              && store == r.store && keys == after
              && (e.Returned? <==> r.Ok?) && (e.Raised? <==> r.Threw?)
      ensures e.Returned? ==> (e.value.None? <==> item.config.None? || item.fetch.Missing?)
      ensures e.Returned? ==>
                OutcomeOf(old(store), existingKeys, env, dry, item) ==
                match e.value
                case Some(kind) => if IsResolved(kind) then Resolved else StillOpen
                case None => if item.config.None? then StillOpen else NotFound
    {
      keys := existingKeys;
      var marked := Mark(dry, item.row, RETRYING, 1);
      if marked.Raised? { e := Raised; return; }
      if marked.Dead? { e := Dead; return; }
      if item.config.None? || item.fetch.Missing? {
        var reopened := Mark(dry, item.row, OPEN, 0);
        e := match reopened case Returned(_) => Returned(None) case Raised => Raised case Dead => Dead;
        return;
      }
      if item.fetch.FetchThrows? {
        e := Raised;
        return;
      }
      var message := Message(item.row.messageId, item.fetch.receivedAt);
      var outcome: Ended<Kind>;
      outcome, keys := ProcessMessage(keys, item.config.value.(dry := dry), message, item.parse, Some(item.row));
      if outcome.Raised? { e := Raised; return; }
      if outcome.Dead? { e := Dead; return; }
      var settled := Mark(dry, item.row, if IsResolved(outcome.value) then RESOLVED else OPEN, 0);
      e := match settled case Returned(_) => Returned(Some(outcome.value)) case Raised => Raised case Dead => Dead;
    }
  }

  lemma NothingNewer()
    ensures MaxReceived([]) == 0
  {
  }

  lemma DrainStep(s: Store, keys: set<string>, env: Env, ctx: Ctx, items: seq<(Message, Parse)>, st: Stats)
    requires items != []
    ensures var (r, keys1) := Process(s, keys, env, ctx, items[0].0, items[0].1, None);
            var d := Drain(s, keys, env, ctx, items, st);
            && (r.Ok? ==> d == Drain(r.store, keys1, env, ctx, items[1..], Count(st, r.value)))
            && (r.Threw? ==> d == Threw(r.store))
            && (r.Died? ==> d == Died(r.store))
  {
    hide Process;
  }

  lemma DrainedAll(s: Store, keys: set<string>, env: Env, ctx: Ctx, st: Stats)
    ensures Drain(s, keys, env, ctx, [], st) == Ok(st, s)
    ensures MaxReceived([]) == 0
  {
  }

  lemma ConsAppend<T>(a: seq<T>, b: seq<T>)
    requires a != []
    ensures a + b == [a[0]] + (a[1..] + b)
  {
  }

  lemma MaxCons(m: Message, rest: seq<Message>)
    ensures MaxReceived([m] + rest) == Max(m.receivedAt, MaxReceived(rest))
  {
    assert ([m] + rest)[1..] == rest;
  }

  lemma MaxConcat(a: seq<Message>, b: seq<Message>)
    ensures MaxReceived(a + b) == Max(MaxReceived(a), MaxReceived(b))
  {
    if a == [] {
      assert a + b == b;
    } else {
      MaxConcat(a[1..], b);
      ConsAppend(a, b);
      MaxCons(a[0], a[1..] + b);
    }
  }

  lemma MaxSnoc(messages: seq<Message>, m: Message)
    ensures MaxReceived(messages + [m]) == Max(MaxReceived(messages), m.receivedAt)
  {
    hide MaxReceived;
    MaxConcat(messages, [m]);
    MaxOne(m);
  }

  lemma MaxOne(m: Message)
    ensures MaxReceived([m]) == Max(m.receivedAt, 0) && MaxReceived([]) == 0
  {
    assert [m][1..] == [];
  }
}
