/**
 Imports, replays and ignores cut into their database calls, with any number of them interleaved and a
 fault possible at every call. A single run on its own is the run of CcTxnImport and ImportHistory; of
 overlapping ones the theorems say that RESOLVED stays honest, that a watermark moves only past recorded
 messages, and that the constraint keeps every message stored at most once.
 */
module Overlap {
  import opened Wrappers
  import opened CcTxnImport
  import opened ImportHistory

  // ---------------------------------------------------------------------------------------------
  // One message, call by call
  // ---------------------------------------------------------------------------------------------

  /** Where the handling of a message stands; `caught` says that an error of the call still leads to the
      catch block. The last three are ends. */
  datatype Stage =
    | Begin
    | CardRead(last4: string)
    | TxnInsert
    | MarkResolved(kind: Kind)
    | RowRead(failureType: FailureType, kind: Kind, caught: bool)
    | RowCreate(failureType: FailureType, kind: Kind, caught: bool)
    | RowUpdate(failureType: FailureType, kind: Kind, caught: bool)
    | Outcome(kind: Kind)
    | Raised
    | Gone

  datatype Work = Work(ctx: Ctx, message: Message, parse: Parse, retry: Option<RowKey>) {
    function Row(): RowKey {
      RowKey(ctx.bank, message.id)
    }
  }

  function OnError(caught: bool): Stage {
    if caught then RowRead(PARSE_ERROR, ParseError, false) else Raised
  }

  function After(r: R<()>, done: Stage, error: Stage): (Store, Stage) {
    match r
    case Ok(_, s) => (s, done)
    case Threw(s) => (s, error)
    case Died(s) => (s, Gone)
  }

  /** What the service decides before its first call for a message, and the keys seen from then on. */
  function Decided(keys: set<string>, w: Work): (Stage, set<string>) {
    match w.parse
    case Throws => (OnError(true), keys)
    case Miss => (RowRead(PARSE_MISS, ParseMiss, true), keys)
    case Parsed(last4) =>
      if last4 !in w.ctx.matched then (RowRead(CARD_NOT_FOUND, CardMissing, true), keys)
      else if Key(w.message) in keys then (Outcome(Duplicate), keys)
      else (if w.ctx.dry then Outcome(Inserted) else CardRead(last4), keys + {Key(w.message)})
  }

  function InsertCall(s: Store, env: Env, w: Work): (Store, Stage) {
    var taken := w.ctx.unique && Key(w.message) in s.txns;
    var kind := if taken then Duplicate else Inserted;
    After(Write(s, env, if taken then s else s.(txns := s.txns + [Key(w.message)])),
          if w.retry.Some? then MarkResolved(kind) else Outcome(kind), RowRead(WRITE_FAILED, WriteFailed, true))
  }

  /** The create of a failure row; another run may have created it since it was looked up. */
  function CreateCall(s: Store, env: Env, w: Work, t: FailureType, kind: Kind, caught: bool): (Store, Stage) {
    if w.Row() in s.failures then After(Read(s, env), OnError(caught), OnError(caught))
    else After(Write(s, env, SetRow(s, w.Row(), FailureRow(OPEN, 1, t))), Outcome(kind), OnError(caught))
  }

  function UpdateCall(s: Store, env: Env, w: Work, t: FailureType, kind: Kind, caught: bool): (Store, Stage) {
    if w.Row() !in s.failures then (s, OnError(caught))
    else After(Write(s, env, SetRow(s, w.Row(), s.failures[w.Row()].(status := OPEN, failureType := t))), Outcome(kind), OnError(caught))
  }

  /** One call; an end stays. */
  function MessageCall(s: Store, env: Env, w: Work, stage: Stage): (Store, Stage) {
    match stage
    case CardRead(last4) =>
      After(Read(s, env), if last4 in w.ctx.stored then TxnInsert else RowRead(CARD_NOT_FOUND, CardMissing, true), OnError(true))
    case TxnInsert => InsertCall(s, env, w)
    case MarkResolved(kind) =>
      if w.retry.None? then (s, Outcome(kind))
      else After(UpdateStatus(s, env, w.retry.value, RESOLVED, 0), Outcome(kind), OnError(true))
    case RowRead(t, kind, caught) =>
      After(Read(s, env), if w.Row() in s.failures then RowUpdate(t, kind, caught) else RowCreate(t, kind, caught), OnError(caught))
    case RowCreate(t, kind, caught) => CreateCall(s, env, w, t, kind, caught)
    case RowUpdate(t, kind, caught) => UpdateCall(s, env, w, t, kind, caught)
    case _ => (s, stage)
  }

  predicate IsEnd(stage: Stage) {
    stage.Outcome? || stage.Raised? || stage.Gone?
  }

  function MessageStep(s: Store, keys: set<string>, env: Env, w: Work, stage: Stage): (Store, set<string>, Stage) {
    if stage.Begin? then
      var (next, keys1) := Decided(keys, w);
      (s, keys1, next)
    else
      var (s1, next) := MessageCall(s, env, w, stage);
      (s1, keys, next)
  }

  function Rank(stage: Stage): nat {
    match stage
    case Begin => 9
    case CardRead(_) => 8
    case TxnInsert => 7
    case MarkResolved(_) => 6
    case RowRead(_, _, caught) => if caught then 5 else 2
    case RowCreate(_, _, caught) => if caught then 4 else 1
    case RowUpdate(_, _, caught) => if caught then 4 else 1
    case _ => 0
  }

  lemma StepRanks(s: Store, keys: set<string>, env: Env, w: Work, stage: Stage)
    requires !IsEnd(stage)
    ensures Rank(MessageStep(s, keys, env, w, stage).2) < Rank(stage)
  {
  }

  /** The message handled to its end with no other run in between. */
  function MessageAlone(s: Store, keys: set<string>, env: Env, w: Work, stage: Stage): (Store, set<string>, Stage)
    decreases Rank(stage)
  {
    if IsEnd(stage) then (s, keys, stage)
    else
      StepRanks(s, keys, env, w, stage);
      var (s1, keys1, next) := MessageStep(s, keys, env, w, stage);
      MessageAlone(s1, keys1, env, w, next)
  }

  function StageOf(r: R<Kind>): Stage {
    match r
    case Ok(kind, _) => Outcome(kind)
    case Threw(_) => Raised
    case Died(_) => Gone
  }

  lemma MessageAloneStep(s: Store, keys: set<string>, env: Env, w: Work, stage: Stage)
    requires !IsEnd(stage)
    ensures var (s1, keys1, next) := MessageStep(s, keys, env, w, stage);
            MessageAlone(s, keys, env, w, stage) == MessageAlone(s1, keys1, env, w, next)
  {
  }

  lemma MessageAloneEnd(s: Store, keys: set<string>, env: Env, w: Work, stage: Stage)
    requires IsEnd(stage)
    ensures MessageAlone(s, keys, env, w, stage) == (s, keys, stage)
  {
  }

  /** Recording a failure in two calls is upsertFailure. */
  lemma RecordAlone(s: Store, keys: set<string>, env: Env, w: Work, t: FailureType, kind: Kind, caught: bool)
    ensures var r := UpsertFailure(s, env, w.Row(), t);
            MessageAlone(s, keys, env, w, RowRead(t, kind, caught)) ==
            MessageAlone(r.store, keys, env, w, if r.Ok? then Outcome(kind) else if r.Threw? then OnError(caught) else Gone)
  {
    hide MessageAlone;
    MessageAloneStep(s, keys, env, w, RowRead(t, kind, caught));
    var (s1, _, next) := MessageStep(s, keys, env, w, RowRead(t, kind, caught));
    if !IsEnd(next) && env(s.clock).Fine? { MessageAloneStep(s1, keys, env, w, next); }
  }

  /** What the catch block makes of an error. */
  lemma CatchAlone(s: Store, keys: set<string>, env: Env, w: Work)
    ensures var r := Then(UpsertFailure(s, env, w.Row(), PARSE_ERROR), ParseError);
            MessageAlone(s, keys, env, w, OnError(true)) == (r.store, keys, StageOf(r))
  {
    hide MessageAlone, UpsertFailure;
    RecordAlone(s, keys, env, w, PARSE_ERROR, ParseError, false);
    var r := UpsertFailure(s, env, w.Row(), PARSE_ERROR);
    MessageAloneEnd(r.store, keys, env, w, if r.Ok? then Outcome(ParseError) else if r.Threw? then Raised else Gone);
  }

  /** What the try block and the catch around it make of what the try block has come to. */
  function Caught(r: R<Kind>, env: Env, w: Work): R<Kind> {
    if r.Threw? then Then(UpsertFailure(r.store, env, w.Row(), PARSE_ERROR), ParseError) else r
  }

  lemma RecordCaught(s: Store, keys: set<string>, env: Env, w: Work, t: FailureType, kind: Kind)
    ensures var r := Caught(Then(UpsertFailure(s, env, w.Row(), t), kind), env, w);
            MessageAlone(s, keys, env, w, RowRead(t, kind, true)) == (r.store, keys, StageOf(r))
  {
    hide MessageAlone, UpsertFailure;
    RecordAlone(s, keys, env, w, t, kind, true);
    var r := UpsertFailure(s, env, w.Row(), t);
    if r.Threw? { CatchAlone(r.store, keys, env, w); }
    else { MessageAloneEnd(r.store, keys, env, w, if r.Ok? then Outcome(kind) else Gone); }
  }

  lemma ResolveCaught(s: Store, keys: set<string>, env: Env, w: Work, kind: Kind)
    requires w.retry.Some?
    ensures var r := Caught(Then(UpdateStatus(s, env, w.retry.value, RESOLVED, 0), kind), env, w);
            MessageAlone(s, keys, env, w, MarkResolved(kind)) == (r.store, keys, StageOf(r))
  {
    hide MessageAlone, UpsertFailure, UpdateStatus;
    MessageAloneStep(s, keys, env, w, MarkResolved(kind));
    var r := UpdateStatus(s, env, w.retry.value, RESOLVED, 0);
    if r.Threw? { CatchAlone(r.store, keys, env, w); }
    else { MessageAloneEnd(r.store, keys, env, w, if r.Ok? then Outcome(kind) else Gone); }
  }

  lemma InsertAlone(s: Store, keys: set<string>, env: Env, w: Work)
    ensures var taken := w.ctx.unique && Key(w.message) in s.txns;
            var after := if taken then s else s.(txns := s.txns + [Key(w.message)]);
            var kind := if taken then Duplicate else Inserted;
            MessageAlone(s, keys, env, w, TxnInsert) ==
            match env(s.clock)
            case Fine =>
              MessageAlone(after.(clock := s.clock + 1), keys, env, w, if w.retry.Some? then MarkResolved(kind) else Outcome(kind))
            case FailsBefore => MessageAlone(s.(clock := s.clock + 1), keys, env, w, RowRead(WRITE_FAILED, WriteFailed, true))
            case FailsAfter => MessageAlone(after.(clock := s.clock + 1), keys, env, w, RowRead(WRITE_FAILED, WriteFailed, true))
            case Dies => (s.(clock := s.clock + 1), keys, Gone)
  {
    hide MessageAlone, Key;
    MessageAloneStep(s, keys, env, w, TxnInsert);
    MessageAloneEnd(s.(clock := s.clock + 1), keys, env, w, Gone);
  }

  lemma StoreAlone(s: Store, keys: set<string>, env: Env, w: Work, last4: string)
    ensures var stored := StoreTxn(s, env, Key(w.message), last4 in w.ctx.stored, w.ctx.unique);
            var r := Caught(AfterStore(stored, env, w.Row(), w.retry), env, w);
            MessageAlone(s, keys, env, w, CardRead(last4)) == (r.store, keys, StageOf(r))
  {
    hide MessageAlone, UpsertFailure, UpdateStatus, Key;
    MessageAloneStep(s, keys, env, w, CardRead(last4));
    var s1 := s.(clock := s.clock + 1);
    match env(s.clock)
    case FailsBefore => CatchAlone(s1, keys, env, w);
    case FailsAfter => CatchAlone(s1, keys, env, w);
    case Dies => MessageAloneEnd(s1, keys, env, w, Gone);
    case Fine =>
      if last4 !in w.ctx.stored {
        RecordCaught(s1, keys, env, w, CARD_NOT_FOUND, CardMissing);
      } else {
        InsertAlone(s1, keys, env, w);
        var taken := w.ctx.unique && Key(w.message) in s1.txns;
        var after := (if taken then s1 else s1.(txns := s1.txns + [Key(w.message)])).(clock := s1.clock + 1);
        var kind := if taken then Duplicate else Inserted;
        match env(s1.clock)
        case Fine =>
          if w.retry.Some? { ResolveCaught(after, keys, env, w, kind); } else { MessageAloneEnd(after, keys, env, w, Outcome(kind)); }
        case FailsBefore => RecordCaught(s1.(clock := s1.clock + 1), keys, env, w, WRITE_FAILED, WriteFailed);
        case FailsAfter => RecordCaught(after, keys, env, w, WRITE_FAILED, WriteFailed);
        case Dies =>
      }
  }

  /** On its own, the handling of a message call by call is processMessage. */
  lemma MessageAloneIsProcess(s: Store, keys: set<string>, env: Env, w: Work)
    ensures var (r, keys1) := Process(s, keys, env, w.ctx, w.message, w.parse, w.retry);
            MessageAlone(s, keys, env, w, Begin) == (r.store, keys1, StageOf(r))
  {
    hide MessageAlone, UpsertFailure, AfterStore, StoreTxn, Key;
    MessageAloneStep(s, keys, env, w, Begin);
    match w.parse
    case Throws => CatchAlone(s, keys, env, w);
    case Miss => RecordCaught(s, keys, env, w, PARSE_MISS, ParseMiss);
    case Parsed(last4) =>
      if last4 !in w.ctx.matched {
        RecordCaught(s, keys, env, w, CARD_NOT_FOUND, CardMissing);
      } else if Key(w.message) in keys {
        MessageAloneEnd(s, keys, env, w, Outcome(Duplicate));
      } else if w.ctx.dry {
        MessageAloneEnd(s, keys + {Key(w.message)}, env, w, Outcome(Inserted));
      } else {
        StoreAlone(s, keys + {Key(w.message)}, env, w, last4);
      }
  }
}
