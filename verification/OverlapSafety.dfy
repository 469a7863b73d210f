/**
 What overlapping runs keep, step by step and so over every schedule: a RESOLVED failure is stored when
 each replay selects its message at most once, and a run about to move its watermark has recorded every
 due message, which stays covered whatever the others do.
 */
module OverlapSafety {
  import opened Wrappers
  import opened CcTxnImport
  import opened ImportHistory
  import opened Overlap
  import opened OverlapRuns

  // ---------------------------------------------------------------------------------------------
  // RESOLVED is honest
  // ---------------------------------------------------------------------------------------------

  /** A stage that is about to resolve the message, or has found it resolved, has it stored; the failure
      rows it records are of unresolved kinds. */
  ghost predicate StageHonest(s: Store, dry: bool, stage: Stage, key: string) {
    match stage
    case MarkResolved(_) => key in s.txns
    case Outcome(kind) => IsResolved(kind) && !dry ==> key in s.txns
    case RowRead(_, kind, _) => !IsResolved(kind)
    case RowCreate(_, kind, _) => !IsResolved(kind)
    case RowUpdate(_, kind, _) => !IsResolved(kind)
    case _ => true
  }

  ghost predicate PhaseHonest(s: Store, dry: bool, phase: Phase, key: string) {
    match phase
    case Handling(stage) => StageHonest(s, dry, stage, key)
    case Settling(status) => status == RESOLVED && !dry ==> key in s.txns
    case _ => true
  }

  /** The message is still to be looked up among the keys seen. */
  ghost predicate KeyAhead(items: seq<RetryItem>, phase: Phase, key: string) {
    || (items != [] && KeyOf(items[0].row.messageId) == key && (phase.Marking? || phase.Fetching? || phase == Handling(Begin)))
    || exists i :: 1 <= i < |items| && KeyOf(items[i].row.messageId) == key
  }

  ghost predicate HonestProc(s: Store, p: Proc, key: string) {
    match p
    case SelectRows(_, items) => AtMostOnce(items, key)
    case ReplayKeys(_, items) => AtMostOnce(items, key)
    case ReplayCards(_, items, keys) => AtMostOnce(items, key) && (key in keys ==> key in s.txns)
    case Replaying(dry, items, keys, phase) =>
      && AtMostOnce(items, key)
      && (KeyAhead(items, phase, key) && key in keys ==> key in s.txns)
      && (items != [] && KeyOf(items[0].row.messageId) == key ==> PhaseHonest(s, dry, phase, key))
    case Draining(_, _, _, _, stage) => !stage.MarkResolved?
    case _ => true
  }

  lemma HonestStays(a: Store, b: Store, p: Proc, key: string)
    requires HonestProc(a, p, key) && Persists(a, b)
    ensures HonestProc(b, p, key)
  {
    hide KeyOf, AtMostOnce, KeyAhead;
    if key in a.txns { StoredStays(a.txns, b.txns, key); }
  }

  lemma RecordCallHonest(s: Store, env: Env, w: Work, stage: Stage, key: string)
    requires ResolvedFor(s, key) && (stage.RowRead? || stage.RowCreate? || stage.RowUpdate?)
    ensures ResolvedFor(MessageCall(s, env, w, stage).0, key)
    ensures StageHonest(s, w.ctx.dry, stage, key) ==>
              StageHonest(MessageCall(s, env, w, stage).0, w.ctx.dry, MessageCall(s, env, w, stage).1, key)
  {
    hide KeyOf;
  }

  lemma StoreCallHonest(s: Store, env: Env, w: Work, stage: Stage, key: string)
    requires ResolvedFor(s, key) && (stage.CardRead? || stage.TxnInsert?)
    ensures ResolvedFor(MessageCall(s, env, w, stage).0, key)
    ensures Key(w.message) == key ==> StageHonest(MessageCall(s, env, w, stage).0, w.ctx.dry, MessageCall(s, env, w, stage).1, key)
  {
    hide KeyOf;
    MessageCallEffect(s, env, w, stage);
    MoreStored(s, MessageCall(s, env, w, stage).0, key);
  }

  lemma ResolveCallHonest(s: Store, env: Env, w: Work, kind: Kind, key: string)
    requires ResolvedFor(s, key) && w.retry.Some? && KeyOf(w.retry.value.messageId) == Key(w.message)
    requires Key(w.message) == key ==> key in s.txns
    ensures ResolvedFor(MessageCall(s, env, w, MarkResolved(kind)).0, key)
    ensures Key(w.message) == key ==>
              StageHonest(MessageCall(s, env, w, MarkResolved(kind)).0, w.ctx.dry, MessageCall(s, env, w, MarkResolved(kind)).1, key)
  {
    hide KeyOf, UpdateStatus, ResolvedFor;
    UpdateResolved(s, env, w.retry.value, RESOLVED, 0, key);
    UpdateStatusGrows(s, env, w.retry.value, RESOLVED, 0);
  }

  /** One step of a message keeps RESOLVED honest, whichever message is looked at. */
  lemma MessageStepHonest(s: Store, keys: set<string>, env: Env, w: Work, stage: Stage, key: string)
    requires ResolvedFor(s, key) && !IsEnd(stage)
    requires w.retry.Some? ==> KeyOf(w.retry.value.messageId) == Key(w.message)
    requires w.retry.None? ==> !stage.MarkResolved?
    requires Key(w.message) == key && w.retry.Some? ==>
               StageHonest(s, w.ctx.dry, stage, key) && (stage.Begin? && key in keys ==> key in s.txns)
    ensures var (b, keys1, next) := MessageStep(s, keys, env, w, stage);
            && ResolvedFor(b, key) && keys <= keys1 <= keys + {Key(w.message)}
            && (w.retry.None? ==> !next.MarkResolved?)
            && (!stage.Begin? ==> keys1 == keys) && !next.Begin?
            && (Key(w.message) == key && w.retry.Some? ==> StageHonest(b, w.ctx.dry, next, key))
  {
    hide Key, KeyOf, ResolvedFor, MessageCall;
    if !stage.Begin? { NextStages(s, env, w, stage); }
    match stage
    case Begin =>
    case MarkResolved(kind) => ResolveCallHonest(s, env, w, kind, key);
    case CardRead(_) => StoreCallHonest(s, env, w, stage, key);
    case TxnInsert => StoreCallHonest(s, env, w, stage, key);
    case _ => RecordCallHonest(s, env, w, stage, key);
  }

  lemma NextStages(s: Store, env: Env, w: Work, stage: Stage)
    requires !stage.Begin?
    ensures var next := MessageCall(s, env, w, stage).1;
            !next.Begin? && (w.retry.None? && !stage.MarkResolved? ==> !next.MarkResolved?)
  {
  }

  lemma MarkHonest(s: Store, env: Env, dry: bool, row: RowKey, status: Status, extra: nat, next: Proc, key: string)
    requires ResolvedFor(s, key) && (status == RESOLVED && !dry && KeyOf(row.messageId) == key ==> key in s.txns)
    ensures var (b, p) := Go(MarkUnlessDry(s, env, dry, row, status, extra), next);
            ResolvedFor(b, key) && b.txns == s.txns && (p == next || p.Stopped?)
  {
    hide ResolvedFor, KeyOf, UpdateStatus;
    MarkKeeps(s, env, dry, row, status, extra, key);
  }

  lemma TailAhead(items: seq<RetryItem>, phase: Phase, key: string)
    requires items != [] && AtMostOnce(items, key)
    ensures AtMostOnce(items[1..], key)
    ensures KeyAhead(items[1..], Marking, key) ==> exists i :: 1 <= i < |items| && KeyOf(items[i].row.messageId) == key
    ensures (exists i :: 1 <= i < |items| && KeyOf(items[i].row.messageId) == key) ==>
              KeyOf(items[0].row.messageId) != key && KeyAhead(items, phase, key)
  {
    hide KeyOf;
    var rest := items[1..];
    assert forall i :: 0 <= i < |rest| ==> rest[i] == items[i + 1];
    if rest != [] && KeyOf(rest[0].row.messageId) == key { assert KeyOf(items[1].row.messageId) == key; }
    if i :| 1 <= i < |rest| && KeyOf(rest[i].row.messageId) == key { assert KeyOf(items[i + 1].row.messageId) == key; }
  }

  lemma ReplayStepHonest(s: Store, env: Env, p: Proc, key: string)
    requires p.Replaying? && ResolvedFor(s, key) && HonestProc(s, p, key)
    ensures ResolvedFor(ReplayStep(s, env, p).0, key) && HonestProc(ReplayStep(s, env, p).0, ReplayStep(s, env, p).1, key)
  {
    hide ResolvedFor, KeyOf, MarkUnlessDry, MessageStep, AtMostOnce, KeyAhead;
    if p.items != [] {
      var item := p.items[0];
      TailAhead(p.items, p.phase, key);
      match p.phase
      case Marking =>
        MarkHonest(s, env, p.dry, item.row, RETRYING, 1, p.(phase := Fetching), key);
        AheadSame(p.items, Marking, Fetching, key);
      case Fetching => AheadFetched(p.items, key);
      case Settling(status) =>
        MarkHonest(s, env, p.dry, item.row, status, 0, p.(items := p.items[1..], phase := Marking), key);
      case Handling(stage) =>
        AheadHandled(p.items, stage, key);
        if item.config.Some? && item.fetch.Found? && !IsEnd(stage) {
          var w := ReplayWork(p.dry, item);
          MessageStepHonest(s, p.keys, env, w, stage, key);
          var (b, keys1, next) := MessageStep(s, p.keys, env, w, stage);
          ReplayPersists(s, p.keys, env, w, stage);
          AheadNext(p.items, stage, next, key);
          if key in s.txns { StoredStays(s.txns, b.txns, key); }
        }
    }
  }

  lemma ReplayPersists(s: Store, keys: set<string>, env: Env, w: Work, stage: Stage)
    ensures Persists(s, MessageStep(s, keys, env, w, stage).0)
  {
    hide MessageCall;
    PersistsSelf(s);
    MessageCallEffect(s, env, w, stage);
  }

  lemma AheadSame(items: seq<RetryItem>, a: Phase, b: Phase, key: string)
    requires a.Marking? && b.Fetching?
    ensures KeyAhead(items, a, key) == KeyAhead(items, b, key)
  {
    hide KeyOf;
  }

  lemma AheadFetched(items: seq<RetryItem>, key: string)
    ensures KeyAhead(items, Settling(OPEN), key) ==> KeyAhead(items, Fetching, key)
    ensures KeyAhead(items, Handling(Begin), key) ==> KeyAhead(items, Fetching, key)
  {
    hide KeyOf;
  }

  lemma AheadHandled(items: seq<RetryItem>, stage: Stage, key: string)
    requires items != []
    ensures forall status :: KeyAhead(items, Settling(status), key) ==> KeyAhead(items, Handling(stage), key)
    ensures stage.Begin? && KeyOf(items[0].row.messageId) == key ==> KeyAhead(items, Handling(stage), key)
  {
    hide KeyOf;
  }

  /** Once looked up, the message itself is no longer ahead; another one still is. */
  lemma AheadNext(items: seq<RetryItem>, stage: Stage, next: Stage, key: string)
    requires items != [] && AtMostOnce(items, key) && !next.Begin?
    ensures KeyAhead(items, Handling(next), key) ==> KeyAhead(items, Handling(stage), key) && KeyOf(items[0].row.messageId) != key
  {
    hide KeyOf;
  }

  lemma DrainStepHonest(s: Store, env: Env, p: Proc, key: string)
    requires p.Draining? && ResolvedFor(s, key) && HonestProc(s, p, key)
    ensures ResolvedFor(DrainStep(s, env, p).0, key) && HonestProc(DrainStep(s, env, p).0, DrainStep(s, env, p).1, key)
  {
    hide ResolvedFor, KeyOf, MessageStep, MaxReceived;
    if p.todo != [] && !IsEnd(p.stage) {
      MessageStepHonest(s, p.keys, env, ImportWork(p.run, p.todo[0]), p.stage, key);
    }
  }

  lemma OtherStepHonest(s: Store, env: Env, p: Proc, key: string)
    requires !p.Draining? && !p.Replaying? && ResolvedFor(s, key) && HonestProc(s, p, key)
    ensures ResolvedFor(ProcStep(s, env, p).0, key) && HonestProc(ProcStep(s, env, p).0, ProcStep(s, env, p).1, key)
  {
    hide KeyOf, Items, Above, MaxReceived, UpdateStatus;
    if p.Ignoring? && p.rows != [] { UpdateResolved(s, env, p.rows[0], IGNORED, 0, key); }
  }

  lemma ProcStepHonest(s: Store, env: Env, p: Proc, key: string)
    requires ResolvedFor(s, key) && HonestProc(s, p, key)
    ensures ResolvedFor(ProcStep(s, env, p).0, key) && HonestProc(ProcStep(s, env, p).0, ProcStep(s, env, p).1, key)
  {
    hide ResolvedFor, HonestProc, DrainStep, ReplayStep;
    if p.Draining? {
      DrainStepHonest(s, env, p, key);
    } else if p.Replaying? {
      ReplayStepHonest(s, env, p, key);
    } else {
      OtherStepHonest(s, env, p, key);
    }
  }

  ghost predicate HonestSystem(sys: System, key: string) {
    ResolvedFor(sys.db, key) && forall p <- sys.procs :: HonestProc(sys.db, p, key)
  }

  lemma ActHonest(sys: System, env: Env, i: nat, key: string)
    requires HonestSystem(sys, key)
    ensures HonestSystem(Act(sys, env, i), key)
  {
    hide ResolvedFor, HonestProc, ProcStep, Persists;
    if i < |sys.procs| {
      var p, next := sys.procs[i], Act(sys, env, i);
      assert p in sys.procs;
      ProcStepHonest(sys.db, env, p, key);
      ProcStepEffect(sys.db, env, p);
      forall q <- next.procs ensures HonestProc(next.db, q, key) {
        var k :| 0 <= k < |next.procs| && next.procs[k] == q;
        if k != i {
          assert q == sys.procs[k] && q in sys.procs;
          HonestStays(sys.db, next.db, q, key);
        }
      }
    }
  }

  lemma {:induction false} ExecuteHonest(sys: System, env: Env, schedule: seq<nat>, key: string)
    requires HonestSystem(sys, key)
    ensures HonestSystem(Execute(sys, env, schedule), key)
    decreases |schedule|
  {
    hide HonestSystem, Act;
    if schedule != [] {
      ActHonest(sys, env, schedule[0], key);
      ExecuteHonest(Act(sys, env, schedule[0]), env, schedule[1..], key);
    }
  }

  /** Runs that have not read anything yet; each replay selects the message at most once. */
  ghost predicate Starts(sys: System, key: string) {
    forall p <- sys.procs :: Fresh(p) && (p.SelectRows? ==> AtMostOnce(p.items, key))
  }

  /** Over every schedule of overlapping runs: a RESOLVED failure of the message is stored. */
  lemma OverlapHonest(sys: System, env: Env, schedule: seq<nat>, key: string)
    requires ResolvedFor(sys.db, key) && Starts(sys, key)
    ensures ResolvedFor(Execute(sys, env, schedule).db, key)
  {
    hide ResolvedFor, AtMostOnce, Execute;
    ExecuteHonest(sys, env, schedule, key);
  }

  // ---------------------------------------------------------------------------------------------
  // Nothing due is lost
  // ---------------------------------------------------------------------------------------------

  /** Stored, or with a failure row of its bank. */
  ghost predicate Recorded(s: Store, bank: string, m: Message) {
    Key(m) in s.txns || RowKey(bank, m.id) in s.failures
  }

  lemma RecordedStays(a: Store, b: Store, bank: string, m: Message)
    requires Recorded(a, bank, m) && Persists(a, b)
    ensures Recorded(b, bank, m)
  {
    hide Key;
    if Key(m) in a.txns { StoredStays(a.txns, b.txns, Key(m)); }
  }

  lemma SameIdRecorded(s: Store, bank: string, a: Message, b: Message)
    requires a.id == b.id && Recorded(s, bank, a)
    ensures Recorded(s, bank, b)
  {
  }

  /** Of a live import: every due message is recorded or still to do, and a key seen is that of a recorded
      message or of the one in hand. */
  ghost predicate DrainRecords(s: Store, run: ImportRun, due: seq<Message>, keys: set<string>, todo: seq<(Message, Parse)>, stage: Stage) {
    && ItemsApart(todo) && !stage.MarkResolved?
    && (forall m <- due :: Recorded(s, run.ctx.bank, m) || exists item <- todo :: item.0.id == m.id)
    && (forall item <- todo :: Key(item.0) in keys ==>
          Recorded(s, run.ctx.bank, item.0) || (!stage.Begin? && item.0.id == todo[0].0.id))
    && (todo != [] && stage.Outcome? ==> Recorded(s, run.ctx.bank, todo[0].0))
  }

  ghost predicate RecordsProc(s: Store, p: Proc) {
    match p
    case Draining(run, due, keys, todo, stage) =>
      !run.ctx.dry && TrimApart(due) ==> DrainRecords(s, run, due, keys, todo, stage)
    case Advance(run, due) => !run.ctx.dry && TrimApart(due) ==> forall m <- due :: Recorded(s, run.ctx.bank, m)
    case _ => true
  }

  lemma RecordsStay(a: Store, b: Store, p: Proc)
    requires RecordsProc(a, p) && Persists(a, b)
    ensures RecordsProc(b, p)
  {
    hide Key, Recorded, Persists, TrimApart, ItemsApart;
    forall bank, m | Recorded(a, bank, m) ensures Recorded(b, bank, m) { RecordedStays(a, b, bank, m); }
  }

  /** A step that brings a message of an import to an outcome has recorded it. */
  lemma MessageStepRecords(s: Store, keys: set<string>, env: Env, w: Work, stage: Stage)
    requires w.retry.None? && !w.ctx.dry && !stage.MarkResolved? && !IsEnd(stage)
    requires stage.Begin? && Key(w.message) in keys ==> Recorded(s, w.ctx.bank, w.message)
    ensures var (b, keys1, next) := MessageStep(s, keys, env, w, stage);
            && Persists(s, b) && keys1 <= keys + {Key(w.message)} && !next.Begin? && !next.MarkResolved?
            && (next.Outcome? ==> Recorded(b, w.ctx.bank, w.message))
  {
    hide Key;
    ReplayPersists(s, keys, env, w, stage);
    MessageCallEffect(s, env, w, stage);
  }

  lemma DrainHead(s: Store, env: Env, p: Proc)
    requires p.Draining? && p.todo != [] && !IsEnd(p.stage) && !p.run.ctx.dry
    requires DrainRecords(s, p.run, p.due, p.keys, p.todo, p.stage)
    ensures var (b, q) := DrainStep(s, env, p);
            q == p.(keys := q.keys, stage := q.stage) && DrainRecords(b, p.run, p.due, q.keys, p.todo, q.stage)
  {
    hide Key, Recorded, MessageStep, Persists;
    var head, w := p.todo[0], ImportWork(p.run, p.todo[0]);
    assert head in p.todo;
    MessageStepRecords(s, p.keys, env, w, p.stage);
    var (b, keys1, next) := MessageStep(s, p.keys, env, w, p.stage);
    forall m | Recorded(s, p.run.ctx.bank, m) ensures Recorded(b, p.run.ctx.bank, m) { RecordedStays(s, b, p.run.ctx.bank, m); }
  }

  lemma DrainTail(s: Store, p: Proc)
    requires p.Draining? && p.todo != [] && p.stage.Outcome?
    requires DrainRecords(s, p.run, p.due, p.keys, p.todo, p.stage)
    ensures DrainRecords(s, p.run, p.due, p.keys, p.todo[1..], Begin)
  {
    hide Key, Recorded;
    var bank, head, rest := p.run.ctx.bank, p.todo[0], p.todo[1..];
    assert forall item <- rest :: item in p.todo;
    forall m <- p.due ensures Recorded(s, bank, m) || exists item <- rest :: item.0.id == m.id {
      if !Recorded(s, bank, m) {
        var item :| item in p.todo && item.0.id == m.id;
        if item == head { SameIdRecorded(s, bank, head.0, m); }
        assert item in rest;
      }
    }
    forall item <- rest | Key(item.0) in p.keys ensures Recorded(s, bank, item.0) {
      if item.0.id == head.0.id { SameIdRecorded(s, bank, head.0, item.0); }
    }
  }

  lemma DrainStepRecords(s: Store, env: Env, p: Proc)
    requires p.Draining? && RecordsProc(s, p)
    ensures RecordsProc(DrainStep(s, env, p).0, DrainStep(s, env, p).1)
  {
    hide Key, Recorded, MessageStep, DrainRecords, MaxReceived, TrimApart;
    if !p.run.ctx.dry && TrimApart(p.due) {
      if p.todo == [] {
        DrainDone(s, p);
      } else if p.stage.Outcome? {
        DrainTail(s, p);
      } else if !IsEnd(p.stage) {
        DrainHead(s, env, p);
      }
    }
  }

  lemma DrainDone(s: Store, p: Proc)
    requires p.Draining? && p.todo == [] && DrainRecords(s, p.run, p.due, p.keys, p.todo, p.stage)
    ensures forall m <- p.due :: Recorded(s, p.run.ctx.bank, m)
  {
  }

  lemma LoadRecords(s: Store, b: Store, run: ImportRun, due: seq<Message>)
    requires 0 < run.size && b.txns == s.txns && b.failures == s.failures && TrimApart(due)
    ensures DrainRecords(b, run, due, Newest(s.txns, EXISTING_KEYS_LIMIT), Items(due, run.size, run.parser), Begin)
  {
    hide Key, Items, TrimApart;
    ApartKeys(due);
    ItemsMembers(due, run.size, run.parser);
    var todo := Items(due, run.size, run.parser);
    forall m <- due ensures exists item <- todo :: item.0.id == m.id {
      var item :| item in todo && item.0 == m;
      assert item.0.id == m.id;
    }
  }

  lemma ProcStepRecords(s: Store, env: Env, p: Proc)
    requires RecordsProc(s, p)
    ensures RecordsProc(ProcStep(s, env, p).0, ProcStep(s, env, p).1)
  {
    hide Key, Recorded, DrainRecords, DrainStep, MessageStep, ReplayStep, MaxReceived, TrimApart, Items, Newest, Above, UpdateStatus;
    if p.Draining? {
      DrainStepRecords(s, env, p);
    } else if p.LoadKeys? && p.run.polled.Some? && p.run.size != 0 {
      var due := Above(p.run.polled.value, p.cutoff);
      if TrimApart(due) { LoadRecords(s, ProcStep(s, env, p).0, p.run, due); }
    } else if p.Replaying? {
      ReplayStays(s, env, p);
    }
  }

  lemma ReplayStays(s: Store, env: Env, p: Proc)
    requires p.Replaying?
    ensures var q := ReplayStep(s, env, p).1; q.Replaying? || q.Stopped?
  {
    hide MessageStep, MarkUnlessDry;
  }

  ghost predicate RecordsSystem(sys: System) {
    forall p <- sys.procs :: RecordsProc(sys.db, p)
  }

  lemma ActRecords(sys: System, env: Env, i: nat)
    requires RecordsSystem(sys)
    ensures RecordsSystem(Act(sys, env, i))
  {
    hide RecordsProc, ProcStep, Persists;
    if i < |sys.procs| {
      var p, next := sys.procs[i], Act(sys, env, i);
      assert p in sys.procs;
      ProcStepRecords(sys.db, env, p);
      ProcStepEffect(sys.db, env, p);
      forall q <- next.procs ensures RecordsProc(next.db, q) {
        var k :| 0 <= k < |next.procs| && next.procs[k] == q;
        if k != i {
          assert q == sys.procs[k] && q in sys.procs;
          RecordsStay(sys.db, next.db, q);
        }
      }
    }
  }

  lemma {:induction false} ExecuteRecords(sys: System, env: Env, schedule: seq<nat>)
    requires RecordsSystem(sys)
    ensures RecordsSystem(Execute(sys, env, schedule))
    decreases |schedule|
  {
    hide RecordsSystem, Act;
    if schedule != [] {
      ActRecords(sys, env, schedule[0]);
      ExecuteRecords(Act(sys, env, schedule[0]), env, schedule[1..]);
    }
  }

  /** Among overlapping runs too, a watermark moves only in the last call of an import, and only to the
      newest time of its due messages. */
  lemma OverlapWatermark(sys: System, env: Env, i: nat)
    ensures var next := Act(sys, env, i);
            next.db.watermarks != sys.db.watermarks ==>
              && i < |sys.procs| && sys.procs[i].Advance?
              && next.db.watermarks == sys.db.watermarks[sys.procs[i].run.folder.bank := MaxReceived(sys.procs[i].due)]
  {
    hide MaxReceived;
    if i < |sys.procs| {
      hide ProcStep;
      ProcStepEffect(sys.db, env, sys.procs[i]);
      if sys.procs[i].Advance? { AdvanceWrites(sys.db, env, sys.procs[i]); }
    }
  }

  lemma AdvanceWrites(s: Store, env: Env, p: Proc)
    requires p.Advance?
    ensures var b := ProcStep(s, env, p).0;
            b.watermarks == s.watermarks || b.watermarks == s.watermarks[p.run.folder.bank := MaxReceived(p.due)]
  {
    hide MaxReceived;
  }

  lemma RecordedIsCovered(s: Store, bank: string, m: Message)
    requires Recorded(s, bank, m) && ResolvedFor(s, Key(m))
    ensures Covered(s, bank, m)
  {
  }

  /** No message is lost among overlapping runs: once a live import has come to its last call, every due
      message is stored or on the failure list of its bank, then and over every schedule that follows, when
      each replay selects it at most once. */
  lemma OverlapNeverLost(sys: System, env: Env, before: seq<nat>, after: seq<nat>, i: nat, m: Message)
    requires ResolvedFor(sys.db, Key(m)) && Starts(sys, Key(m))
    ensures var mid := Execute(sys, env, before);
            i < |mid.procs| && mid.procs[i].Advance? && m in mid.procs[i].due
            && !mid.procs[i].run.ctx.dry && TrimApart(mid.procs[i].due) ==>
              Covered(Execute(mid, env, after).db, mid.procs[i].run.ctx.bank, m)
  {
    hide Key, Execute, ResolvedFor, AtMostOnce, TrimApart, Covered, Recorded;
    var mid := Execute(sys, env, before);
    ExecuteRecords(sys, env, before);
    if i < |mid.procs| && mid.procs[i].Advance? && m in mid.procs[i].due
       && !mid.procs[i].run.ctx.dry && TrimApart(mid.procs[i].due) {
      assert mid.procs[i] in mid.procs;
      var bank := mid.procs[i].run.ctx.bank;
      ExecutePersists(mid, env, after);
      RecordedStays(mid.db, Execute(mid, env, after).db, bank, m);
      ExecuteAppend(sys, env, before, after);
      OverlapHonest(sys, env, before + after, Key(m));
      RecordedIsCovered(Execute(mid, env, after).db, bank, m);
    }
  }
}
