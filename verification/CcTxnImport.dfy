/**
 The card-transaction import of one folder and the replay of its failures, with a fault possible at
 every database call. Each call consults the environment: it works, it raises before or after taking
 effect, or the process dies there. Polling and parsing are arbitrary.
 */
module CcTxnImport {
  import opened Wrappers
  import opened Payments

  datatype Message = Message(id: string, receivedAt: int)

  /** What the parsers make of one message, given the batch it was sent in. A parsed transaction
      always carries the id of its message. */
  datatype Parse = Throws | Miss | Parsed(last4: string)
  type Parser = (seq<Message>, Message) -> Parse

  datatype Status = OPEN | RETRYING | RESOLVED | IGNORED
  datatype FailureType = PARSE_MISS | PARSE_ERROR | CARD_NOT_FOUND | WRITE_FAILED
  datatype FailureRow = FailureRow(status: Status, attempts: nat, failureType: FailureType)
  datatype RowKey = RowKey(bank: string, messageId: string)

  /** `txns` holds the dedupe keys of the stored transactions, oldest first. */
  datatype Store = Store(txns: seq<string>, failures: map<RowKey, FailureRow>, watermarks: map<string, int>, clock: nat)

  datatype Fault = Fine | FailsBefore | FailsAfter | Dies
  type Env = nat -> Fault

  /** How a piece of the service ended, and the store it left. */
  datatype R<+T> = Ok(value: T, store: Store) | Threw(store: Store) | Died(store: Store)

  datatype Kind = Inserted | Duplicate | ParseMiss | ParseError | CardMissing | WriteFailed

  /** What a folder's run knows besides the message: which last4 digits the wallet matches, which have
      a card row, whether the database enforces unique keys, and whether the run is dry. */
  datatype Ctx = Ctx(bank: string, matched: set<string>, stored: set<string>, unique: bool, dry: bool)

  const EXISTING_KEYS_LIMIT := 10000

  function KeyOf(messageId: string): string {
    "EMAIL::" + Trim(messageId)
  }

  function Key(m: Message): string {
    KeyOf(m.id)
  }

  /** Two messages share a key exactly when their ids are equal once trimmed. */
  lemma KeyIdentifies(a: string, b: string)
    ensures KeyOf(a) == KeyOf(b) <==> Trim(a) == Trim(b)
  {
    hide Trim;
    assert KeyOf(a)[7..] == Trim(a) && KeyOf(b)[7..] == Trim(b);
  }

  // ---------------------------------------------------------------------------------------------
  // Database calls
  // ---------------------------------------------------------------------------------------------

  function Write(s: Store, env: Env, after: Store): R<()> {
    match env(s.clock)
    case Fine => Ok((), after.(clock := s.clock + 1))
    case FailsBefore => Threw(s.(clock := s.clock + 1))
    case FailsAfter => Threw(after.(clock := s.clock + 1))
    case Dies => Died(s.(clock := s.clock + 1))
  }

  function Read(s: Store, env: Env): R<()> {
    Write(s, env, s)
  }

  function SetRow(s: Store, row: RowKey, value: FailureRow): Store {
    s.(failures := s.failures[row := value])
  }

  /** upsertFailure: look the row up, then create it OPEN with one attempt or reopen it. */
  function UpsertFailure(s: Store, env: Env, row: RowKey, failureType: FailureType): R<()> {
    match Read(s, env)
    case Threw(s1) => Threw(s1)
    case Died(s1) => Died(s1)
    case Ok(_, s1) =>
      var value := if row in s1.failures then s1.failures[row].(status := OPEN, failureType := failureType)
                   else FailureRow(OPEN, 1, failureType);
      Write(s1, env, SetRow(s1, row, value))
  }

  /** An update of a failure row by id; it raises when there is no such row. */
  function UpdateStatus(s: Store, env: Env, row: RowKey, status: Status, extraAttempts: nat): R<()> {
    if row !in s.failures then Threw(s)
    else Write(s, env, SetRow(s, row, s.failures[row].(status := status, attempts := s.failures[row].attempts + extraAttempts)))
  }

  /** upsertTransaction: find the card row, then insert. A unique violation reads as a duplicate, any
      other error of the insert as a failed write. */
  function StoreTxn(s: Store, env: Env, key: string, hasCard: bool, unique: bool): R<Kind> {
    match Read(s, env)
    case Threw(s1) => Threw(s1)
    case Died(s1) => Died(s1)
    case Ok(_, s1) =>
      var taken := unique && key in s1.txns;
      var after := if taken then s1 else s1.(txns := s1.txns + [key]);
      if !hasCard then Ok(CardMissing, s1)
      else match env(s1.clock)
        case Fine => Ok(if taken then Duplicate else Inserted, after.(clock := s1.clock + 1))
        case FailsBefore => Ok(WriteFailed, s1.(clock := s1.clock + 1))
        case FailsAfter => Ok(WriteFailed, after.(clock := s1.clock + 1))
        case Dies => Died(s1.(clock := s1.clock + 1))
  }

  function Then(r: R<()>, kind: Kind): R<Kind> {
    match r
    case Ok(_, s) => Ok(kind, s)
    case Threw(s) => Threw(s)
    case Died(s) => Died(s)
  }

  // ---------------------------------------------------------------------------------------------
  // One message
  // ---------------------------------------------------------------------------------------------

  /** What follows the insert: resolve the replayed failure, or record a new one. */
  function AfterStore(w: R<Kind>, env: Env, row: RowKey, retry: Option<RowKey>): R<Kind> {
    match w
    case Threw(s) => w
    case Died(s) => w
    case Ok(kind, s) =>
      match kind
      case CardMissing => Then(UpsertFailure(s, env, row, CARD_NOT_FOUND), CardMissing)
      case WriteFailed => Then(UpsertFailure(s, env, row, WRITE_FAILED), WriteFailed)
      case _ => if retry.Some? then Then(UpdateStatus(s, env, retry.value, RESOLVED, 0), kind) else w
  }

  /** The body of the try block, and the keys seen so far. */
  function Attempt(s: Store, keys: set<string>, env: Env, ctx: Ctx, m: Message, parse: Parse, retry: Option<RowKey>)
    : (R<Kind>, set<string>)
  {
    var row := RowKey(ctx.bank, m.id);
    match parse
    case Throws => (Threw(s), keys)
    case Miss => (Then(UpsertFailure(s, env, row, PARSE_MISS), ParseMiss), keys)
    case Parsed(last4) =>
      if last4 !in ctx.matched then (Then(UpsertFailure(s, env, row, CARD_NOT_FOUND), CardMissing), keys)
      else if Key(m) in keys then (Ok(Duplicate, s), keys)
      else if ctx.dry then (Ok(Inserted, s), keys + {Key(m)})
      else (AfterStore(StoreTxn(s, env, Key(m), last4 in ctx.stored, ctx.unique), env, row, retry), keys + {Key(m)})
  }

  /** processMessage: anything raised inside becomes a PARSE_ERROR row; raising again escapes. */
  function Process(s: Store, keys: set<string>, env: Env, ctx: Ctx, m: Message, parse: Parse, retry: Option<RowKey>)
    : (R<Kind>, set<string>)
  {
    var (r, keys1) := Attempt(s, keys, env, ctx, m, parse, retry);
    if r.Threw? then (Then(UpsertFailure(r.store, env, RowKey(ctx.bank, m.id), PARSE_ERROR), ParseError), keys1)
    else (r, keys1)
  }

  // ---------------------------------------------------------------------------------------------
  // One folder
  // ---------------------------------------------------------------------------------------------

  datatype Folder = Folder(bank: string, legacy: Option<string>)

  datatype Stats = Stats(inserted: nat, duplicates: nat, parseMiss: nat, parseErrors: nat, writeFailures: nat, cardMissing: nat)

  const NO_STATS := Stats(0, 0, 0, 0, 0, 0)

  function Count(st: Stats, kind: Kind): Stats {
    match kind
    case Inserted => st.(inserted := st.inserted + 1)
    case Duplicate => st.(duplicates := st.duplicates + 1)
    case ParseMiss => st.(parseMiss := st.parseMiss + 1)
    case ParseError => st.(parseErrors := st.parseErrors + 1)
    case CardMissing => st.(cardMissing := st.cardMissing + 1)
    case WriteFailed => st.(writeFailures := st.writeFailures + 1)
  }

  /** The watermark in force: the folder's own, else the one of its legacy key. */
  function Cutoff(s: Store, folder: Folder): Option<int> {
    if folder.bank in s.watermarks then Some(s.watermarks[folder.bank])
    else if folder.legacy.Some? && folder.legacy.value in s.watermarks then Some(s.watermarks[folder.legacy.value])
    else None
  }

  function ResolveWindow(s: Store, env: Env, folder: Folder): R<Option<int>> {
    match Read(s, env)
    case Threw(s1) => Threw(s1)
    case Died(s1) => Died(s1)
    case Ok(_, s1) =>
      if folder.bank in s1.watermarks || folder.legacy.None? then Ok(Cutoff(s1, folder), s1)
      else match Read(s1, env)
        case Threw(s2) => Threw(s2)
        case Died(s2) => Died(s2)
        case Ok(_, s2) => Ok(Cutoff(s2, folder), s2)
  }

  function Above(messages: seq<Message>, cutoff: Option<int>): (r: seq<Message>)
    ensures forall m :: m in r <==> m in messages && (cutoff.Some? ==> m.receivedAt > cutoff.value)
  {
    if messages == [] then []
    else (if cutoff.Some? && messages[0].receivedAt <= cutoff.value then [] else [messages[0]]) + Above(messages[1..], cutoff)
  }

  function MaxReceived(messages: seq<Message>): (r: int)
    ensures 0 <= r && forall m <- messages :: m.receivedAt <= r
    ensures r > 0 ==> exists m <- messages :: m.receivedAt == r
  {
    if messages == [] then 0 else Max(messages[0].receivedAt, MaxReceived(messages[1..]))
  }

  /** The keys the run starts from: the newest ones, up to the limit of the query. */
  function Newest(txns: seq<string>, limit: nat): (r: set<string>)
    ensures r <= set k | k in txns
    ensures |txns| <= limit ==> r == set k | k in txns
  {
    var kept := if |txns| <= limit then txns else txns[|txns| - limit..];
    set k | k in kept
  }

  function Drain(s: Store, keys: set<string>, env: Env, ctx: Ctx, items: seq<(Message, Parse)>, st: Stats): R<Stats>
    decreases |items|
  {
    if items == [] then Ok(st, s)
    else
      var (r, keys1) := Process(s, keys, env, ctx, items[0].0, items[0].1, None);
      match r
      case Ok(kind, s1) => Drain(s1, keys1, env, ctx, items[1..], Count(st, kind))
      case Threw(s1) => Threw(s1)
      case Died(s1) => Died(s1)
  }

  function ParseChunk(chunk: seq<Message>, parser: Parser): seq<(Message, Parse)> {
    seq(|chunk|, i requires 0 <= i < |chunk| => (chunk[i], parser(chunk, chunk[i])))
  }

  /** Messages paired with what their batch of `size` makes of them. */
  function Items(messages: seq<Message>, size: nat, parser: Parser): (r: seq<(Message, Parse)>)
    requires 0 < size
    ensures |r| == |messages| && forall i :: 0 <= i < |r| ==> r[i].0 == messages[i]
    decreases |messages|
  {
    if |messages| <= size then ParseChunk(messages, parser)
    else ParseChunk(messages[..size], parser) + Items(messages[size..], size, parser)
  }

  function Finish(r: R<Stats>, env: Env, folder: Folder, dry: bool, newest: int): R<Stats> {
    match r
    case Threw(s) => r
    case Died(s) => r
    case Ok(st, s) =>
      if dry || newest <= 0 then r
      else match Write(s, env, s.(watermarks := s.watermarks[folder.bank := newest]))
        case Ok(_, s1) => Ok(st, s1)
        case Threw(s1) => Threw(s1)
        case Died(s1) => Died(s1)
  }

  /** runImportForBank; `polled` is None when polling raises. */
  function RunFolder(s: Store, env: Env, folder: Folder, ctx: Ctx, polled: Option<seq<Message>>, size: nat, parser: Parser)
    : R<Stats>
    requires 0 < size
  {
    match ResolveWindow(s, env, folder)
    case Threw(s1) => Threw(s1)
    case Died(s1) => Died(s1)
    case Ok(cutoff, s1) =>
      if polled.None? then Threw(s1)
      else
        var messages := Above(polled.value, cutoff);
        match Read(s1, env)
        case Threw(s2) => Threw(s2)
        case Died(s2) => Died(s2)
        case Ok(_, s2) =>
          var drained := Drain(s2, Newest(s2.txns, EXISTING_KEYS_LIMIT), env, ctx, Items(messages, size, parser), NO_STATS);
          Finish(drained, env, folder, ctx.dry, MaxReceived(messages))
  }

  // ---------------------------------------------------------------------------------------------
  // Frames
  // ---------------------------------------------------------------------------------------------

  /** From `a` to `b`: transactions are only added, rows outside `rows` keep their value, no row
      disappears, and the watermarks stand. */
  ghost predicate Grows(a: Store, b: Store, rows: set<RowKey>) {
    && |a.txns| <= |b.txns| && a.txns == b.txns[..|a.txns|]
    && a.failures.Keys <= b.failures.Keys
    && (forall k :: k in b.failures && k !in rows ==> k in a.failures && b.failures[k] == a.failures[k])
    && a.watermarks == b.watermarks
  }

  lemma GrowsTransitive(a: Store, b: Store, c: Store, rows: set<RowKey>, more: set<RowKey>)
    requires Grows(a, b, rows) && Grows(b, c, more)
    ensures Grows(a, c, rows + more)
  {
    assert a.txns == c.txns[..|a.txns|];
  }

  /** A stored key stays stored. */
  lemma StoredStays(a: seq<string>, b: seq<string>, key: string)
    requires |a| <= |b| && a == b[..|a|] && key in a
    ensures key in b
  {
    var i :| 0 <= i < |a| && a[i] == key;
    assert b[i] == key;
  }

  lemma UpsertFailureGrows(s: Store, env: Env, row: RowKey, t: FailureType)
    ensures Grows(s, UpsertFailure(s, env, row, t).store, {row})
    ensures UpsertFailure(s, env, row, t).Ok? ==>
              var after := UpsertFailure(s, env, row, t).store;
              row in after.failures && after.failures[row].status == OPEN
    ensures UpsertFailure(s, env, row, t).store.txns == s.txns
  {
  }

  lemma UpdateStatusGrows(s: Store, env: Env, row: RowKey, status: Status, extra: nat)
    ensures Grows(s, UpdateStatus(s, env, row, status, extra).store, {row})
    ensures UpdateStatus(s, env, row, status, extra).store.txns == s.txns
  {
  }

  /** Adding a key, or nothing, at any clock. */
  lemma AppendGrows(s: Store, b: Store, key: string)
    requires b.txns == s.txns || b.txns == s.txns + [key]
    requires b.failures == s.failures && b.watermarks == s.watermarks
    ensures Grows(s, b, {}) && (b.txns == s.txns + [key] ==> key in b.txns)
  {
    assert (s.txns + [key])[..|s.txns|] == s.txns && (s.txns + [key])[|s.txns|] == key;
  }

  lemma StoreTxnGrows(s: Store, env: Env, key: string, hasCard: bool, unique: bool)
    ensures var r := StoreTxn(s, env, key, hasCard, unique);
            && Grows(s, r.store, {})
            && r.store.failures == s.failures
            && (r.store.txns == s.txns || (r.store.txns == s.txns + [key] && !(unique && key in s.txns)))
            && (r.Ok? && (r.value.Inserted? || r.value.Duplicate?) ==> key in r.store.txns)
            && (r.Ok? ==> !r.value.ParseMiss? && !r.value.ParseError?)
  {
    hide Grows;
    AppendGrows(s, StoreTxn(s, env, key, hasCard, unique).store, key);
  }

  function RetryRows(retry: Option<RowKey>): set<RowKey> {
    if retry.Some? then {retry.value} else {}
  }

  lemma AfterStoreGrows(w: R<Kind>, env: Env, row: RowKey, retry: Option<RowKey>)
    ensures Grows(w.store, AfterStore(w, env, row, retry).store, {row} + RetryRows(retry))
    ensures AfterStore(w, env, row, retry).store.txns == w.store.txns
  {
    hide UpsertFailure, UpdateStatus;
    UpsertFailureGrows(w.store, env, row, CARD_NOT_FOUND);
    UpsertFailureGrows(w.store, env, row, WRITE_FAILED);
    if retry.Some? { UpdateStatusGrows(w.store, env, retry.value, RESOLVED, 0); }
  }

  /** What the inserted keys can be: at most the message's own, and only when it was not seen before. */
  ghost predicate KeysStep(s: Store, keys: set<string>, unique: bool, key: string, after: Store, keys1: set<string>) {
    && keys <= keys1 <= keys + {key}
    && (after.txns == s.txns
        || (after.txns == s.txns + [key] && key !in keys && key in keys1 && !(unique && key in s.txns)))
  }

  lemma AttemptGrows(s: Store, keys: set<string>, env: Env, ctx: Ctx, m: Message, parse: Parse, retry: Option<RowKey>)
    ensures var (r, keys1) := Attempt(s, keys, env, ctx, m, parse, retry);
            && Grows(s, r.store, {RowKey(ctx.bank, m.id)} + RetryRows(retry))
            && KeysStep(s, keys, ctx.unique, Key(m), r.store, keys1)
  {
    hide AfterStore, StoreTxn, UpsertFailure, Key;
    var row := RowKey(ctx.bank, m.id);
    UpsertFailureGrows(s, env, row, PARSE_MISS);
    UpsertFailureGrows(s, env, row, CARD_NOT_FOUND);
    if parse.Parsed? && parse.last4 in ctx.matched && Key(m) !in keys && !ctx.dry {
      var w := StoreTxn(s, env, Key(m), parse.last4 in ctx.stored, ctx.unique);
      StoreTxnGrows(s, env, Key(m), parse.last4 in ctx.stored, ctx.unique);
      AfterStoreGrows(w, env, row, retry);
      GrowsTransitive(s, w.store, AfterStore(w, env, row, retry).store, {}, {row} + RetryRows(retry));
    }
  }

  lemma ProcessGrows(s: Store, keys: set<string>, env: Env, ctx: Ctx, m: Message, parse: Parse, retry: Option<RowKey>)
    ensures var (r, keys1) := Process(s, keys, env, ctx, m, parse, retry);
            && Grows(s, r.store, {RowKey(ctx.bank, m.id)} + RetryRows(retry))
            && KeysStep(s, keys, ctx.unique, Key(m), r.store, keys1)
  {
    AttemptGrows(s, keys, env, ctx, m, parse, retry);
    var (r, _) := Attempt(s, keys, env, ctx, m, parse, retry);
    UpsertFailureGrows(r.store, env, RowKey(ctx.bank, m.id), PARSE_ERROR);
  }

  // ---------------------------------------------------------------------------------------------
  // Failure rows
  // ---------------------------------------------------------------------------------------------

  /** No row disappears; rows keep their attempts and change status only to OPEN, or to RESOLVED for the
      replayed row; new rows are OPEN. */
  ghost predicate RowsKept(a: Store, b: Store, retry: Option<RowKey>) {
    && (forall k :: k in a.failures ==>
          && k in b.failures && b.failures[k].attempts == a.failures[k].attempts
          && (b.failures[k].status == a.failures[k].status || b.failures[k].status == OPEN
              || (retry == Some(k) && b.failures[k].status == RESOLVED)))
    && (forall k :: k in b.failures && k !in a.failures ==>
          b.failures[k].status == OPEN || (retry == Some(k) && b.failures[k].status == RESOLVED))
  }

  /** Recording a failure again reopens its row and keeps its count; a new row is OPEN with one attempt. */
  lemma UpsertReopens(s: Store, env: Env, row: RowKey, t: FailureType)
    ensures UpsertFailure(s, env, row, t).Ok? ==>
              var after := UpsertFailure(s, env, row, t).store;
              after.failures == s.failures[row := FailureRow(OPEN, if row in s.failures then s.failures[row].attempts else 1, t)]
  {
  }

  lemma UpsertKeepsRows(s: Store, env: Env, row: RowKey, t: FailureType, retry: Option<RowKey>)
    ensures RowsKept(s, UpsertFailure(s, env, row, t).store, retry)
  {
  }

  lemma RowsKeptTransitive(a: Store, b: Store, c: Store, retry: Option<RowKey>)
    requires RowsKept(a, b, retry) && RowsKept(b, c, retry)
    ensures RowsKept(a, c, retry)
  {
  }

  lemma SameFailures(a: Store, b: Store, c: Store, retry: Option<RowKey>)
    requires a.failures == b.failures
    ensures RowsKept(a, c, retry) == RowsKept(b, c, retry) && RowsKept(a, b, retry)
    ensures RowsKept(c, a, retry) == RowsKept(c, b, retry)
  {
  }

  lemma ResolveKeepsRows(s: Store, env: Env, row: RowKey)
    ensures RowsKept(s, UpdateStatus(s, env, row, RESOLVED, 0).store, Some(row))
  {
  }

  lemma AfterStoreKeepsRows(w: R<Kind>, env: Env, row: RowKey, retry: Option<RowKey>)
    ensures RowsKept(w.store, AfterStore(w, env, row, retry).store, retry)
  {
    hide UpsertFailure, UpdateStatus, RowsKept;
    UpsertKeepsRows(w.store, env, row, CARD_NOT_FOUND, retry);
    UpsertKeepsRows(w.store, env, row, WRITE_FAILED, retry);
    SameFailures(w.store, w.store, w.store, retry);
    if retry.Some? { ResolveKeepsRows(w.store, env, retry.value); }
  }

  lemma AttemptKeepsRows(s: Store, keys: set<string>, env: Env, ctx: Ctx, m: Message, parse: Parse, retry: Option<RowKey>)
    ensures RowsKept(s, Attempt(s, keys, env, ctx, m, parse, retry).0.store, retry)
  {
    hide AfterStore, StoreTxn, UpsertFailure, Key, RowsKept;
    var row := RowKey(ctx.bank, m.id);
    UpsertKeepsRows(s, env, row, PARSE_MISS, retry);
    UpsertKeepsRows(s, env, row, CARD_NOT_FOUND, retry);
    SameFailures(s, s, s, retry);
    if parse.Parsed? {
      var w := StoreTxn(s, env, Key(m), parse.last4 in ctx.stored, ctx.unique);
      StoreTxnGrows(s, env, Key(m), parse.last4 in ctx.stored, ctx.unique);
      AfterStoreKeepsRows(w, env, row, retry);
      SameFailures(s, w.store, AfterStore(w, env, row, retry).store, retry);
    }
  }

  /** Processing a message, even one that failed before, is not counted as an attempt. */
  lemma ProcessKeepsRows(s: Store, keys: set<string>, env: Env, ctx: Ctx, m: Message, parse: Parse, retry: Option<RowKey>)
    ensures RowsKept(s, Process(s, keys, env, ctx, m, parse, retry).0.store, retry)
  {
    hide Attempt, UpsertFailure, RowsKept;
    var row := RowKey(ctx.bank, m.id);
    var (r, _) := Attempt(s, keys, env, ctx, m, parse, retry);
    AttemptKeepsRows(s, keys, env, ctx, m, parse, retry);
    UpsertKeepsRows(r.store, env, row, PARSE_ERROR, retry);
    if r.Threw? { RowsKeptTransitive(s, r.store, UpsertFailure(r.store, env, row, PARSE_ERROR).store, retry); }
  }

  lemma {:induction false} DrainKeepsRows(s: Store, keys: set<string>, env: Env, ctx: Ctx, items: seq<(Message, Parse)>, st: Stats)
    ensures RowsKept(s, Drain(s, keys, env, ctx, items, st).store, None)
    decreases |items|
  {
    hide Process, RowsKept;
    SameFailures(s, s, s, None);
    if items != [] {
      var (r, keys1) := Process(s, keys, env, ctx, items[0].0, items[0].1, None);
      ProcessKeepsRows(s, keys, env, ctx, items[0].0, items[0].1, None);
      if r.Ok? {
        DrainKeepsRows(r.store, keys1, env, ctx, items[1..], Count(st, r.value));
        RowsKeptTransitive(s, r.store, Drain(s, keys, env, ctx, items, st).store, None);
      }
    }
  }

  // ---------------------------------------------------------------------------------------------
  // No message is lost
  // ---------------------------------------------------------------------------------------------

  ghost predicate Accounted(s: Store, bank: string, m: Message) {
    Key(m) in s.txns || (RowKey(bank, m.id) in s.failures && s.failures[RowKey(bank, m.id)].status == OPEN)
  }

  lemma ProcessAccounts(s: Store, keys: set<string>, env: Env, ctx: Ctx, m: Message, parse: Parse)
    requires !ctx.dry && (Key(m) in keys ==> Accounted(s, ctx.bank, m))
    ensures var r := Process(s, keys, env, ctx, m, parse, None).0;
            r.Ok? ==> Accounted(r.store, ctx.bank, m)
  {
    hide UpsertFailure, StoreTxn, Key;
    var row := RowKey(ctx.bank, m.id);
    var (a, _) := Attempt(s, keys, env, ctx, m, parse, None);
    UpsertFailureGrows(a.store, env, row, PARSE_ERROR);
    if parse.Miss? {
      UpsertFailureGrows(s, env, row, PARSE_MISS);
    } else if parse.Parsed? {
      if parse.last4 !in ctx.matched {
        UpsertFailureGrows(s, env, row, CARD_NOT_FOUND);
      } else if Key(m) !in keys {
        var w := StoreTxn(s, env, Key(m), parse.last4 in ctx.stored, ctx.unique);
        StoreTxnGrows(s, env, Key(m), parse.last4 in ctx.stored, ctx.unique);
        UpsertFailureGrows(w.store, env, row, CARD_NOT_FOUND);
        UpsertFailureGrows(w.store, env, row, WRITE_FAILED);
      }
    }
  }

  /** Mail ids that differ still differ once trimmed. The same mail may be polled more than once. */
  ghost predicate TrimApart(messages: seq<Message>) {
    forall a <- messages, b <- messages :: Trim(a.id) == Trim(b.id) ==> a.id == b.id
  }

  lemma ApartKeys(messages: seq<Message>)
    requires TrimApart(messages)
    ensures forall a <- messages, b <- messages :: Key(a) == Key(b) ==> a.id == b.id
  {
    hide Trim, KeyOf;
    forall a <- messages, b <- messages | Key(a) == Key(b) ensures a.id == b.id { KeyIdentifies(a.id, b.id); }
  }

  function RowsOf(bank: string, items: seq<(Message, Parse)>): set<RowKey> {
    set item | item in items :: RowKey(bank, item.0.id)
  }

  /** An import never takes a message off the failure list, so what is accounted for stays so. */
  lemma AccountedStays(a: Store, b: Store, rows: set<RowKey>, bank: string, m: Message)
    requires Grows(a, b, rows) && RowsKept(a, b, None) && Accounted(a, bank, m)
    ensures Accounted(b, bank, m)
  {
    if Key(m) in a.txns {
      StoredStays(a.txns, b.txns, Key(m));
    }
  }

  lemma {:induction false} DrainGrows(s: Store, keys: set<string>, env: Env, ctx: Ctx, items: seq<(Message, Parse)>, st: Stats)
    ensures Grows(s, Drain(s, keys, env, ctx, items, st).store, RowsOf(ctx.bank, items))
    decreases |items|
  {
    if items != [] {
      var (r, keys1) := Process(s, keys, env, ctx, items[0].0, items[0].1, None);
      ProcessGrows(s, keys, env, ctx, items[0].0, items[0].1, None);
      assert items[0] in items;
      if r.Ok? {
        DrainGrows(r.store, keys1, env, ctx, items[1..], Count(st, r.value));
        GrowsTransitive(s, r.store, Drain(s, keys, env, ctx, items, st).store,
                        {RowKey(ctx.bank, items[0].0.id)} + RetryRows(None), RowsOf(ctx.bank, items[1..]));
      }
    }
  }

  ghost predicate ItemsApart(items: seq<(Message, Parse)>) {
    forall x <- items, y <- items :: Key(x.0) == Key(y.0) ==> x.0.id == y.0.id
  }

  lemma HeadAccounted(s: Store, keys: set<string>, env: Env, ctx: Ctx, items: seq<(Message, Parse)>)
    requires items != [] && !ctx.dry && ItemsApart(items)
    requires forall item <- items :: Key(item.0) in keys ==> Accounted(s, ctx.bank, item.0)
    ensures var (r, keys1) := Process(s, keys, env, ctx, items[0].0, items[0].1, None);
            r.Ok? ==>
              && Accounted(r.store, ctx.bank, items[0].0)
              && forall item <- items[1..] :: Key(item.0) in keys1 ==> Accounted(r.store, ctx.bank, item.0)
  {
    hide Process, Key;
    var m := items[0].0;
    var (r, keys1) := Process(s, keys, env, ctx, m, items[0].1, None);
    assert items[0] in items;
    ProcessGrows(s, keys, env, ctx, m, items[0].1, None);
    ProcessKeepsRows(s, keys, env, ctx, m, items[0].1, None);
    ProcessAccounts(s, keys, env, ctx, m, items[0].1);
    if r.Ok? {
      forall item <- items[1..] | Key(item.0) in keys1 ensures Accounted(r.store, ctx.bank, item.0) {
        assert item in items;
        if Key(item.0) != Key(m) {
          AccountedStays(s, r.store, {RowKey(ctx.bank, m.id)} + RetryRows(None), ctx.bank, item.0);
        }
      }
    }
  }

  /** A drain that gets to its end has accounted for every one of its messages. */
  lemma {:induction false} DrainAccounts(s: Store, keys: set<string>, env: Env, ctx: Ctx, items: seq<(Message, Parse)>, st: Stats)
    requires !ctx.dry && ItemsApart(items)
    requires forall item <- items :: Key(item.0) in keys ==> Accounted(s, ctx.bank, item.0)
    ensures Drain(s, keys, env, ctx, items, st).Ok? ==>
              forall item <- items :: Accounted(Drain(s, keys, env, ctx, items, st).store, ctx.bank, item.0)
    decreases |items|
  {
    hide Process, Accounted, Grows, RowsKept, Key;
    if items != [] {
      var m, rest := items[0].0, items[1..];
      var (r, keys1) := Process(s, keys, env, ctx, m, items[0].1, None);
      HeadAccounted(s, keys, env, ctx, items);
      if r.Ok? {
        DrainAccounts(r.store, keys1, env, ctx, rest, Count(st, r.value));
        DrainGrows(r.store, keys1, env, ctx, rest, Count(st, r.value));
        DrainKeepsRows(r.store, keys1, env, ctx, rest, Count(st, r.value));
        var after := Drain(s, keys, env, ctx, items, st).store;
        if Drain(s, keys, env, ctx, items, st).Ok? {
          AccountedStays(r.store, after, RowsOf(ctx.bank, rest), ctx.bank, m);
          forall item <- items ensures Accounted(after, ctx.bank, item.0) {
            if item != items[0] { assert item in rest; }
          }
        }
      }
    }
  }

  lemma ItemsMembers(messages: seq<Message>, size: nat, parser: Parser)
    requires 0 < size
    ensures forall m <- messages :: exists item <- Items(messages, size, parser) :: item.0 == m
    ensures forall item <- Items(messages, size, parser) :: item.0 in messages
  {
    var items := Items(messages, size, parser);
    forall m <- messages ensures exists item <- items :: item.0 == m {
      var i :| 0 <= i < |messages| && messages[i] == m;
      assert items[i] in items;
    }
  }

  /** The messages a run is responsible for. */
  ghost function Due(s: Store, folder: Folder, polled: seq<Message>): seq<Message> {
    Above(polled, Cutoff(s, folder))
  }

  /** A full drain of a run's due messages, started from the keys the run loads. */
  lemma DrainDue(s: Store, env: Env, ctx: Ctx, due: seq<Message>, size: nat, parser: Parser)
    requires 0 < size && !ctx.dry && TrimApart(due)
    ensures var d := Drain(s, Newest(s.txns, EXISTING_KEYS_LIMIT), env, ctx, Items(due, size, parser), NO_STATS);
            && d.store.watermarks == s.watermarks
            && (d.Ok? ==> forall m <- due :: Accounted(d.store, ctx.bank, m))
  {
    hide Drain, Items, Key, TrimApart;
    ApartKeys(due);
    var keys, items := Newest(s.txns, EXISTING_KEYS_LIMIT), Items(due, size, parser);
    ItemsMembers(due, size, parser);
    DrainAccounts(s, keys, env, ctx, items, NO_STATS);
    DrainGrows(s, keys, env, ctx, items, NO_STATS);
    var d := Drain(s, keys, env, ctx, items, NO_STATS);
    if d.Ok? {
      forall m <- due ensures Accounted(d.store, ctx.bank, m) {
        var item :| item in items && item.0 == m;
      }
    }
  }

  lemma FinishEffect(r: R<Stats>, env: Env, folder: Folder, dry: bool, newest: int)
    ensures var f := Finish(r, env, folder, dry, newest);
            && f.store.txns == r.store.txns && f.store.failures == r.store.failures
            && (f.store.watermarks == r.store.watermarks
                || (r.Ok? && !dry && newest > 0 && f.store.watermarks == r.store.watermarks[folder.bank := newest]))
            && (f.Ok? ==> r.Ok? && f.value == r.value
                          && (!dry && newest > 0 ==> f.store.watermarks == r.store.watermarks[folder.bank := newest]))
  {
  }

  lemma DueAbove(s: Store, folder: Folder, polled: seq<Message>)
    ensures var newest := MaxReceived(Due(s, folder, polled));
            newest > 0 && Cutoff(s, folder).Some? ==> newest > Cutoff(s, folder).value
    ensures TrimApart(polled) ==> TrimApart(Due(s, folder, polled))
  {
    hide Trim;
  }

  lemma AccountedFrame(a: Store, b: Store, bank: string, m: Message)
    requires a.txns == b.txns && a.failures == b.failures
    ensures Accounted(a, bank, m) == Accounted(b, bank, m)
  {
  }

  /** A folder run up to its last step, the write of the watermark. */
  function BeforeWatermark(s: Store, env: Env, folder: Folder, ctx: Ctx, polled: seq<Message>, size: nat, parser: Parser)
    : R<Stats>
    requires 0 < size
  {
    match ResolveWindow(s, env, folder)
    case Threw(s1) => Threw(s1)
    case Died(s1) => Died(s1)
    case Ok(cutoff, s1) =>
      match Read(s1, env)
      case Threw(s2) => Threw(s2)
      case Died(s2) => Died(s2)
      case Ok(_, s2) =>
        Drain(s2, Newest(s2.txns, EXISTING_KEYS_LIMIT), env, ctx, Items(Above(polled, cutoff), size, parser), NO_STATS)
  }

  lemma RunIsFinish(s: Store, env: Env, folder: Folder, ctx: Ctx, polled: seq<Message>, size: nat, parser: Parser)
    requires 0 < size
    ensures RunFolder(s, env, folder, ctx, Some(polled), size, parser) ==
            Finish(BeforeWatermark(s, env, folder, ctx, polled, size, parser), env, folder, ctx.dry,
                   MaxReceived(Due(s, folder, polled)))
  {
    hide Drain, Items, ResolveWindow, Cutoff, Above, MaxReceived, Newest;
    WindowKeeps(s, env, folder);
  }

  /** It ends before its drain, with the tables as they were, or it is a drain of the due messages that
      starts from the tables as they were. */
  lemma FolderParts(s: Store, env: Env, folder: Folder, ctx: Ctx, polled: seq<Message>, size: nat, parser: Parser)
    returns (start: Store)
    requires 0 < size
    ensures start.txns == s.txns && start.failures == s.failures && start.watermarks == s.watermarks
    ensures var b := BeforeWatermark(s, env, folder, ctx, polled, size, parser);
            || b == Drain(start, Newest(s.txns, EXISTING_KEYS_LIMIT), env, ctx, Items(Due(s, folder, polled), size, parser), NO_STATS)
            || (!b.Ok? && b.store.txns == s.txns && b.store.failures == s.failures && b.store.watermarks == s.watermarks)
  {
    hide Drain, Items, ResolveWindow, Cutoff, Above, Newest;
    WindowKeeps(s, env, folder);
    var w := ResolveWindow(s, env, folder);
    start := s;
    if w.Ok? && Read(w.store, env).Ok? { start := Read(w.store, env).store; }
  }

  /** Before the last step the watermarks stand, and a run that gets there has accounted for every due
      message. */
  lemma BeforeWatermarkAccounts(s: Store, env: Env, folder: Folder, ctx: Ctx, polled: seq<Message>, size: nat, parser: Parser)
    requires 0 < size && ctx.bank == folder.bank
    ensures var b := BeforeWatermark(s, env, folder, ctx, polled, size, parser);
            && b.store.watermarks == s.watermarks
            && (b.Ok? && !ctx.dry && TrimApart(polled) ==> forall m <- Due(s, folder, polled) :: Accounted(b.store, folder.bank, m))
  {
    hide Drain, Items, BeforeWatermark, Due, Accounted, Newest, TrimApart;
    var due := Due(s, folder, polled);
    var start := FolderParts(s, env, folder, ctx, polled, size, parser);
    DueAbove(s, folder, polled);
    DrainGrows(start, Newest(start.txns, EXISTING_KEYS_LIMIT), env, ctx, Items(due, size, parser), NO_STATS);
    if !ctx.dry && TrimApart(polled) { DrainDue(start, env, ctx, due, size, parser); }
  }

  /** Only the last step of a run writes a watermark; before it, all due messages are accounted for.
      So however the run ends (returned, raised or dead), a watermark that moved covers only
      accounted messages, and is the newest time among them, above the old one; a run that died
      before its last call took effect moved none. */
  lemma WatermarkSafe(s: Store, env: Env, folder: Folder, ctx: Ctx, polled: seq<Message>, size: nat, parser: Parser)
    requires 0 < size && ctx.bank == folder.bank && !ctx.dry && TrimApart(polled)
    ensures var r := RunFolder(s, env, folder, ctx, Some(polled), size, parser);
            var due := Due(s, folder, polled);
            && (r.store.watermarks != s.watermarks || r.Ok? ==> forall m <- due :: Accounted(r.store, folder.bank, m))
            && (r.Ok? && MaxReceived(due) > 0 ==> r.store.watermarks == s.watermarks[folder.bank := MaxReceived(due)])
            && (r.Died? ==> r.store.watermarks == s.watermarks)
            && (r.store.watermarks == s.watermarks
                || (r.store.watermarks == s.watermarks[folder.bank := MaxReceived(due)]
                    && (Cutoff(s, folder).Some? ==> MaxReceived(due) > Cutoff(s, folder).value)))
  {
    hide RunFolder, BeforeWatermark, Due, Cutoff, Accounted, MaxReceived, TrimApart;
    var due := Due(s, folder, polled);
    var b := BeforeWatermark(s, env, folder, ctx, polled, size, parser);
    BeforeWatermarkAccounts(s, env, folder, ctx, polled, size, parser);
    RunIsFinish(s, env, folder, ctx, polled, size, parser);
    DueAbove(s, folder, polled);
    var r := RunFolder(s, env, folder, ctx, Some(polled), size, parser);
    if b.Ok? {
      forall m <- due ensures Accounted(r.store, folder.bank, m) { AccountedFrame(b.store, r.store, folder.bank, m); }
    }
  }

  lemma AdvanceIsNew(s: Store, folder: Folder, polled: seq<Message>)
    requires MaxReceived(Due(s, folder, polled)) > 0
    ensures s.watermarks[folder.bank := MaxReceived(Due(s, folder, polled))] != s.watermarks
  {
    hide Due, MaxReceived;
    DueAbove(s, folder, polled);
    var newest := MaxReceived(Due(s, folder, polled));
    assert s.watermarks[folder.bank := newest][folder.bank] == newest;
  }

  /** Exactly when a run moves its watermark, and how it then ends: it is no dry run, something is due,
      everything before the last call went through, and that call takes effect. It is the last call alone
      that can move the watermark and still raise. */
  lemma WatermarkMovesIff(s: Store, env: Env, folder: Folder, ctx: Ctx, polled: seq<Message>, size: nat, parser: Parser)
    requires 0 < size && ctx.bank == folder.bank
    ensures var r := RunFolder(s, env, folder, ctx, Some(polled), size, parser);
            var b := BeforeWatermark(s, env, folder, ctx, polled, size, parser);
            var writes := b.Ok? && !ctx.dry && MaxReceived(Due(s, folder, polled)) > 0;
            && (r.store.watermarks != s.watermarks <==> writes && (env(b.store.clock).Fine? || env(b.store.clock).FailsAfter?))
            && (r.store.watermarks != s.watermarks && !r.Ok? <==> writes && env(b.store.clock).FailsAfter?)
            && (r.store.watermarks != s.watermarks && !r.Ok? ==> r.Threw?)
  {
    hide RunFolder, BeforeWatermark, Due, MaxReceived, TrimApart;
    var b := BeforeWatermark(s, env, folder, ctx, polled, size, parser);
    BeforeWatermarkAccounts(s, env, folder, ctx, polled, size, parser);
    RunIsFinish(s, env, folder, ctx, polled, size, parser);
    if MaxReceived(Due(s, folder, polled)) > 0 { AdvanceIsNew(s, folder, polled); }
  }

  const NO_STORE := Store([], map[], map[], 0)

  /** One message that no parser understands, in an empty store: its run reads the window and the keys,
      records the failure in two calls, and writes the watermark in the fifth. When that call raises
      after taking effect, the run raises and the watermark has moved. */
  lemma MovedThoughRaised(bank: string, id: string, env: Env, parser: Parser)
    requires forall n :: env(n) == if n == 4 then FailsAfter else Fine
    requires forall chunk, m :: parser(chunk, m) == Miss
    ensures var r := RunFolder(NO_STORE, env, Folder(bank, None), Ctx(bank, {}, {}, true, false), Some([Message(id, 5)]), 1, parser);
            r.Threw? && r.store.watermarks == map[bank := 5]
  {
    hide Drain, Newest, RunFolder, MaxReceived;
    var m, ctx, folder := Message(id, 5), Ctx(bank, {}, {}, true, false), Folder(bank, None);
    var start := NO_STORE.(clock := 2);
    assert Due(NO_STORE, folder, [m]) == [m] + Above([m][1..], None) == [m];
    NewestOfOne(m);
    assert ParseChunk([m], parser) == [(m, Miss)];
    assert ResolveWindow(NO_STORE, env, folder) == Ok(None, NO_STORE.(clock := 1));
    assert Read(NO_STORE.(clock := 1), env) == Ok((), start);
    OneMiss(start, Newest([], EXISTING_KEYS_LIMIT), env, ctx, m, NO_STATS);
    RunIsFinish(NO_STORE, env, folder, ctx, [m], 1, parser);
  }

  lemma NewestOfOne(m: Message)
    requires 0 < m.receivedAt
    ensures MaxReceived([m]) == m.receivedAt
  {
    assert [m][1..] == [];
  }

  lemma OneMiss(s: Store, keys: set<string>, env: Env, ctx: Ctx, m: Message, st: Stats)
    requires env(s.clock) == Fine && env(s.clock + 1) == Fine
    ensures var d := Drain(s, keys, env, ctx, [(m, Miss)], st);
            d.Ok? && d.store.clock == s.clock + 2 && d.store.watermarks == s.watermarks
  {
    assert [(m, Miss)][1..] == [];
    var (r, keys1) := Process(s, keys, env, ctx, m, Miss, None);
    assert r.Ok? && r.store.clock == s.clock + 2;
    assert Drain(s, keys, env, ctx, [(m, Miss)], st) == Drain(r.store, keys1, env, ctx, [], Count(st, r.value));
  }

  lemma DryProcess(s: Store, keys: set<string>, env: Env, ctx: Ctx, m: Message, parse: Parse)
    requires ctx.dry
    ensures Process(s, keys, env, ctx, m, parse, None).0.store.txns == s.txns
  {
    hide UpsertFailure;
    var row := RowKey(ctx.bank, m.id);
    UpsertFailureGrows(s, env, row, PARSE_MISS);
    UpsertFailureGrows(s, env, row, CARD_NOT_FOUND);
    var (r, _) := Attempt(s, keys, env, ctx, m, parse, None);
    UpsertFailureGrows(r.store, env, row, PARSE_ERROR);
  }

  lemma {:induction false} DryDrain(s: Store, keys: set<string>, env: Env, ctx: Ctx, items: seq<(Message, Parse)>, st: Stats)
    requires ctx.dry
    ensures Drain(s, keys, env, ctx, items, st).store.txns == s.txns
    decreases |items|
  {
    hide Process;
    if items != [] {
      var (r, keys1) := Process(s, keys, env, ctx, items[0].0, items[0].1, None);
      DryProcess(s, keys, env, ctx, items[0].0, items[0].1);
      if r.Ok? { DryDrain(r.store, keys1, env, ctx, items[1..], Count(st, r.value)); }
    }
  }

  /** A dry run stores no transaction and moves no watermark, whatever happens; the failure rows it
      records stay. */
  lemma DryRunStoresNothing(s: Store, env: Env, folder: Folder, ctx: Ctx, polled: seq<Message>, size: nat, parser: Parser)
    requires 0 < size && ctx.dry
    ensures var after := RunFolder(s, env, folder, ctx, Some(polled), size, parser).store;
            after.txns == s.txns && after.watermarks == s.watermarks
  {
    hide Drain, Items, Finish, RunFolder, BeforeWatermark, Due, MaxReceived, Newest;
    var b := BeforeWatermark(s, env, folder, ctx, polled, size, parser);
    var start := FolderParts(s, env, folder, ctx, polled, size, parser);
    var keys, items := Newest(s.txns, EXISTING_KEYS_LIMIT), Items(Due(s, folder, polled), size, parser);
    DryDrain(start, keys, env, ctx, items, NO_STATS);
    DrainGrows(start, keys, env, ctx, items, NO_STATS);
    RunIsFinish(s, env, folder, ctx, polled, size, parser);
    FinishEffect(b, env, folder, ctx.dry, MaxReceived(Due(s, folder, polled)));
  }

  lemma WindowKeeps(s: Store, env: Env, folder: Folder)
    ensures var w := ResolveWindow(s, env, folder);
            && w.store.txns == s.txns && w.store.failures == s.failures && w.store.watermarks == s.watermarks
            && (w.Ok? ==> w.value == Cutoff(s, folder))
  {
  }
}
