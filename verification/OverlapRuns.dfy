/**
 Whole runs as sequences of database calls, any number of them interleaved over one set of tables. Each
 run on its own is its big-step counterpart; the safety theorems are about every schedule.
 */
module OverlapRuns {
  import opened Wrappers
  import opened CcTxnImport
  import opened ImportHistory
  import opened Overlap

  datatype ImportRun = ImportRun(folder: Folder, ctx: Ctx, polled: Option<seq<Message>>, size: nat, parser: Parser)

  datatype End = Returned | ThrewUp | DiedThere

  /** Where the replay of its current failure stands. */
  datatype Phase = Marking | Fetching | Handling(stage: Stage) | Settling(status: Status)

  datatype Proc =
    | Stopped(end: End)
    | OwnWindow(run: ImportRun)
    | LegacyWindow(run: ImportRun)
    | LoadKeys(run: ImportRun, cutoff: Option<int>)
    | Draining(run: ImportRun, due: seq<Message>, keys: set<string>, todo: seq<(Message, Parse)>, stage: Stage)
    | Advance(run: ImportRun, due: seq<Message>)
    | SelectRows(dry: bool, items: seq<RetryItem>)
    | ReplayKeys(dry: bool, items: seq<RetryItem>)
    | ReplayCards(dry: bool, items: seq<RetryItem>, keys: set<string>)
    | Replaying(dry: bool, items: seq<RetryItem>, keys: set<string>, phase: Phase)
    | IgnoreSelect(rows: seq<RowKey>)
    | Ignoring(rows: seq<RowKey>)

  function Go(r: R<()>, next: Proc): (Store, Proc) {
    match r
    case Ok(_, s) => (s, next)
    case Threw(s) => (s, Stopped(ThrewUp))
    case Died(s) => (s, Stopped(DiedThere))
  }

  function ImportWork(run: ImportRun, item: (Message, Parse)): Work {
    Work(run.ctx, item.0, item.1, None)
  }

  function ReplayWork(dry: bool, item: RetryItem): Work
    requires item.config.Some? && item.fetch.Found?
  {
    Work(item.config.value.(dry := dry), Message(item.row.messageId, item.fetch.receivedAt), item.parse, Some(item.row))
  }

  function DrainStep(s: Store, env: Env, p: Proc): (Store, Proc)
    requires p.Draining?
  {
    if p.todo == [] then
      (s, if p.run.ctx.dry || MaxReceived(p.due) <= 0 then Stopped(Returned) else Advance(p.run, p.due))
    else
      match p.stage
      case Outcome(_) => (s, p.(todo := p.todo[1..], stage := Begin))
      case Raised => (s, Stopped(ThrewUp))
      case Gone => (s, Stopped(DiedThere))
      case _ =>
        var (s1, keys1, next) := MessageStep(s, p.keys, env, ImportWork(p.run, p.todo[0]), p.stage);
        (s1, p.(keys := keys1, stage := next))
  }

  function ReplayStep(s: Store, env: Env, p: Proc): (Store, Proc)
    requires p.Replaying?
  {
    if p.items == [] then (s, Stopped(Returned))
    else
      var item := p.items[0];
      match p.phase
      case Marking => Go(MarkUnlessDry(s, env, p.dry, item.row, RETRYING, 1), p.(phase := Fetching))
      case Fetching =>
        if item.config.None? || item.fetch.Missing? then (s, p.(phase := Settling(OPEN)))
        else if item.fetch.FetchThrows? then (s, Stopped(ThrewUp))
        else (s, p.(phase := Handling(Begin)))
      case Settling(status) =>
        Go(MarkUnlessDry(s, env, p.dry, item.row, status, 0), p.(items := p.items[1..], phase := Marking))
      case Handling(stage) =>
        if item.config.None? || !item.fetch.Found? then (s, Stopped(ThrewUp))
        else
          match stage
          case Outcome(kind) => (s, p.(phase := Settling(if IsResolved(kind) then RESOLVED else OPEN)))
          case Raised => (s, Stopped(ThrewUp))
          case Gone => (s, Stopped(DiedThere))
          case _ =>
            var (s1, keys1, next) := MessageStep(s, p.keys, env, ReplayWork(p.dry, item), stage);
            (s1, p.(keys := keys1, phase := Handling(next)))
  }

  /** One step of a run: at most one database call. */
  function ProcStep(s: Store, env: Env, p: Proc): (Store, Proc) {
    match p
    case Stopped(_) => (s, p)
    case OwnWindow(run) =>
      Go(Read(s, env),
         if run.folder.bank in s.watermarks then LoadKeys(run, Some(s.watermarks[run.folder.bank]))
         else if run.folder.legacy.None? then LoadKeys(run, None)
         else LegacyWindow(run))
    case LegacyWindow(run) =>
      if run.folder.legacy.None? then (s, Stopped(ThrewUp))
      else
        var key := run.folder.legacy.value;
        Go(Read(s, env), LoadKeys(run, if key in s.watermarks then Some(s.watermarks[key]) else None))
    case LoadKeys(run, cutoff) =>
      if run.polled.None? || run.size == 0 then (s, Stopped(ThrewUp))
      else
        var due := Above(run.polled.value, cutoff);
        Go(Read(s, env), Draining(run, due, Newest(s.txns, EXISTING_KEYS_LIMIT), Items(due, run.size, run.parser), Begin))
    case Draining(_, _, _, _, _) => DrainStep(s, env, p)
    case Advance(run, due) =>
      Go(Write(s, env, s.(watermarks := s.watermarks[run.folder.bank := MaxReceived(due)])), Stopped(Returned))
    case SelectRows(dry, items) => Go(Read(s, env), ReplayKeys(dry, items))
    case ReplayKeys(dry, items) => Go(Read(s, env), ReplayCards(dry, items, Newest(s.txns, EXISTING_KEYS_LIMIT)))
    case ReplayCards(dry, items, keys) => Go(Read(s, env), Replaying(dry, items, keys, Marking))
    case Replaying(_, _, _, _) => ReplayStep(s, env, p)
    case IgnoreSelect(rows) => Go(Read(s, env), Ignoring(rows))
    case Ignoring(rows) =>
      if rows == [] then (s, Stopped(Returned))
      else Go(UpdateStatus(s, env, rows[0], IGNORED, 0), Ignoring(rows[1..]))
  }

  datatype System = System(db: Store, procs: seq<Proc>)

  function Act(sys: System, env: Env, i: nat): System {
    if i < |sys.procs| then
      var (db, p) := ProcStep(sys.db, env, sys.procs[i]);
      System(db, sys.procs[i := p])
    else sys
  }

  /** A schedule names, step by step, the run that moves. */
  function Execute(sys: System, env: Env, schedule: seq<nat>): System
    decreases |schedule|
  {
    if schedule == [] then sys else Execute(Act(sys, env, schedule[0]), env, schedule[1..])
  }

  /** A run that has not read anything yet. */
  predicate Fresh(p: Proc) {
    p.Stopped? || p.OwnWindow? || p.SelectRows? || p.IgnoreSelect?
  }

  // ---------------------------------------------------------------------------------------------
  // What every step does to the tables
  // ---------------------------------------------------------------------------------------------

  /** Transactions and failure rows only accumulate; each step adds at most one key. */
  ghost predicate StepEffect(s: Store, b: Store, p: Proc) {
    && Persists(s, b)
    && (b.txns == s.txns || exists key :: b.txns == s.txns + [key] && (Unique(p) ==> key !in s.txns))
    && (b.watermarks != s.watermarks ==> p.Advance?)
  }

  /** The run's database enforces the constraint. */
  ghost predicate Unique(p: Proc) {
    match p
    case OwnWindow(run) => run.ctx.unique
    case LegacyWindow(run) => run.ctx.unique
    case LoadKeys(run, _) => run.ctx.unique
    case Draining(run, _, _, _, _) => run.ctx.unique
    case Advance(run, _) => run.ctx.unique
    case SelectRows(_, items) => ItemsUnique(items)
    case ReplayKeys(_, items) => ItemsUnique(items)
    case ReplayCards(_, items, _) => ItemsUnique(items)
    case Replaying(_, items, _, _) => ItemsUnique(items)
    case _ => true
  }

  ghost predicate ItemsUnique(items: seq<RetryItem>) {
    forall item <- items :: item.config.Some? ==> item.config.value.unique
  }

  /** One call of a message: rows persist, and only the insert adds its key. */
  lemma MessageCallEffect(s: Store, env: Env, w: Work, stage: Stage)
    ensures var (b, next) := MessageCall(s, env, w, stage);
            && Persists(s, b) && b.watermarks == s.watermarks
            && (b.txns == s.txns
                || (stage.TxnInsert? && b.txns == s.txns + [Key(w.message)] && !(w.ctx.unique && Key(w.message) in s.txns)))
  {
    hide Key;
    assert (s.txns + [Key(w.message)])[..|s.txns|] == s.txns;
  }

  lemma MessageStepEffect(s: Store, keys: set<string>, env: Env, w: Work, stage: Stage, p: Proc)
    requires Unique(p) ==> w.ctx.unique
    ensures StepEffect(s, MessageStep(s, keys, env, w, stage).0, p)
  {
    hide Key, MessageCall, Unique;
    PersistsSelf(s);
    MessageCallEffect(s, env, w, stage);
  }

  lemma PersistsSelf(s: Store)
    ensures Persists(s, s)
  {
  }

  lemma WriteEffect(s: Store, env: Env, after: Store, next: Proc, p: Proc)
    requires after.txns == s.txns && s.failures.Keys <= after.failures.Keys
    requires after.watermarks != s.watermarks ==> p.Advance?
    ensures StepEffect(s, Go(Write(s, env, after), next).0, p)
  {
  }

  lemma UpdateEffect(s: Store, env: Env, row: RowKey, status: Status, extra: nat, next: Proc, p: Proc)
    ensures StepEffect(s, Go(UpdateStatus(s, env, row, status, extra), next).0, p)
  {
    PersistsSelf(s);
    if row in s.failures {
      WriteEffect(s, env, SetRow(s, row, s.failures[row].(status := status, attempts := s.failures[row].attempts + extra)), next, p);
    }
  }

  lemma ReplayStepEffect(s: Store, env: Env, p: Proc)
    requires p.Replaying?
    ensures StepEffect(s, ReplayStep(s, env, p).0, p)
  {
    hide StepEffect, MessageStep, UpdateStatus, Persists;
    SameStore(s, p);
    if p.items != [] {
      var item := p.items[0];
      assert item in p.items;
      match p.phase
      case Marking => UpdateEffect(s, env, item.row, RETRYING, 1, p.(phase := Fetching), p);
      case Settling(status) => UpdateEffect(s, env, item.row, status, 0, p.(items := p.items[1..], phase := Marking), p);
      case Handling(stage) =>
        if item.config.Some? && item.fetch.Found? { MessageStepEffect(s, p.keys, env, ReplayWork(p.dry, item), stage, p); }
      case Fetching =>
    }
  }

  lemma SameStore(s: Store, p: Proc)
    ensures StepEffect(s, s, p)
  {
  }

  lemma ProcStepEffect(s: Store, env: Env, p: Proc)
    ensures StepEffect(s, ProcStep(s, env, p).0, p)
  {
    hide StepEffect, MessageStep, UpdateStatus, Write, ReplayStep, Items, Above, MaxReceived, Newest, Unique;
    SameStore(s, p);
    forall next { WriteEffect(s, env, s, next, p); }
    match p
    case Draining(run, due, keys, todo, stage) =>
      UniqueRun(p);
      if todo != [] { MessageStepEffect(s, keys, env, ImportWork(run, todo[0]), stage, p); }
    case Replaying(_, _, _, _) => ReplayStepEffect(s, env, p);
    case Advance(run, due) =>
      WriteEffect(s, env, s.(watermarks := s.watermarks[run.folder.bank := MaxReceived(due)]), Stopped(Returned), p);
    case Ignoring(rows) => if rows != [] { UpdateEffect(s, env, rows[0], IGNORED, 0, Ignoring(rows[1..]), p); }
    case _ =>
  }

  lemma UniqueRun(p: Proc)
    requires p.Draining?
    ensures Unique(p) ==> p.run.ctx.unique
  {
  }

  // ---------------------------------------------------------------------------------------------
  // The constraint
  // ---------------------------------------------------------------------------------------------

  ghost predicate AllUnique(sys: System) {
    forall p <- sys.procs :: Unique(p)
  }

  lemma StepStaysUnique(s: Store, env: Env, p: Proc)
    requires Unique(p)
    ensures Unique(ProcStep(s, env, p).1)
  {
    hide MessageStep, UpdateStatus, Write, Items, Above, MaxReceived, Newest;
    if p.Replaying? && p.items != [] {
      assert forall item <- p.items[1..] :: item in p.items;
    }
  }

  /** Under the constraint no overlap of imports, replays and ignores stores a message twice. */
  lemma {:induction false} OverlapStoresOnce(sys: System, env: Env, schedule: seq<nat>)
    requires StoredOnce(sys.db) && AllUnique(sys)
    ensures StoredOnce(Execute(sys, env, schedule).db)
    decreases |schedule|
  {
    hide ProcStep, Unique;
    if schedule != [] {
      var i, next := schedule[0], Act(sys, env, schedule[0]);
      if i < |sys.procs| {
        var p := sys.procs[i];
        assert p in sys.procs;
        ProcStepEffect(sys.db, env, p);
        StepStaysUnique(sys.db, env, p);
        if next.db.txns != sys.db.txns {
          var key :| next.db.txns == sys.db.txns + [key] && (Unique(p) ==> key !in sys.db.txns);
          AppendOnce(sys.db.txns, key);
        }
      }
      OverlapStoresOnce(next, env, schedule[1..]);
    }
  }

  lemma {:induction false} ExecutePersists(sys: System, env: Env, schedule: seq<nat>)
    ensures Persists(sys.db, Execute(sys, env, schedule).db)
    decreases |schedule|
  {
    hide ProcStep, Persists;
    PersistsSelf(sys.db);
    if schedule != [] {
      var next := Act(sys, env, schedule[0]);
      if schedule[0] < |sys.procs| { ProcStepEffect(sys.db, env, sys.procs[schedule[0]]); }
      ExecutePersists(next, env, schedule[1..]);
      PersistsTransitive(sys.db, next.db, Execute(sys, env, schedule).db);
    }
  }

  lemma {:induction false} ExecuteAppend(sys: System, env: Env, first: seq<nat>, second: seq<nat>)
    ensures Execute(sys, env, first + second) == Execute(Execute(sys, env, first), env, second)
    decreases |first|
  {
    hide Act;
    if first == [] {
      assert first + second == second;
    } else {
      assert (first + second)[1..] == first[1..] + second;
      ExecuteAppend(Act(sys, env, first[0]), env, first[1..], second);
    }
  }
}
