/**
 A run cut into its calls, with no other run in between, is the run as a whole: imports, replays and
 ignores end in the same tables and in the same way.
 */
module OverlapAlone {
  import opened Wrappers
  import opened CcTxnImport
  import opened ImportHistory
  import opened Overlap
  import opened OverlapRuns

  // ---------------------------------------------------------------------------------------------
  // Running one run to its end
  // ---------------------------------------------------------------------------------------------

  function Section(p: Proc): nat {
    match p
    case Stopped(_) => 0
    case OwnWindow(_) => 5
    case LegacyWindow(_) => 4
    case LoadKeys(_, _) => 3
    case Draining(_, _, _, _, _) => 2
    case Advance(_, _) => 1
    case SelectRows(_, _) => 4
    case ReplayKeys(_, _) => 3
    case ReplayCards(_, _, _) => 2
    case Replaying(_, _, _, _) => 1
    case IgnoreSelect(_) => 2
    case Ignoring(_) => 1
  }

  function Left(p: Proc): nat {
    match p
    case Draining(_, _, _, todo, _) => |todo|
    case Replaying(_, items, _, _) => |items|
    case Ignoring(rows) => |rows|
    case _ => 0
  }

  function Place(p: Proc): nat {
    match p
    case Draining(_, _, _, _, stage) => Rank(stage)
    case Replaying(_, _, _, phase) =>
      (match phase
       case Marking => 20
       case Fetching => 15
       case Handling(stage) => 2 + Rank(stage)
       case Settling(_) => 1)
    case _ => 0
  }

  lemma StepGetsOn(s: Store, env: Env, p: Proc)
    requires !p.Stopped?
    ensures var q := ProcStep(s, env, p).1;
            Section(q) < Section(p) || (Section(q) == Section(p) && Left(q) < Left(p))
            || (Section(q) == Section(p) && Left(q) == Left(p) && Place(q) < Place(p))
  {
    hide MessageStep, UpdateStatus, Items, Above, MaxReceived, Newest;
    if p.Draining? && p.todo != [] && !IsEnd(p.stage) { StepRanks(s, p.keys, env, ImportWork(p.run, p.todo[0]), p.stage); }
    if p.Replaying? && p.items != [] && p.phase.Handling? && !IsEnd(p.phase.stage)
       && p.items[0].config.Some? && p.items[0].fetch.Found? {
      StepRanks(s, p.keys, env, ReplayWork(p.dry, p.items[0]), p.phase.stage);
    }
  }

  function Alone(s: Store, env: Env, p: Proc): (Store, End)
    decreases Section(p), Left(p), Place(p)
  {
    if p.Stopped? then (s, p.end)
    else
      StepGetsOn(s, env, p);
      var (s1, q) := ProcStep(s, env, p);
      Alone(s1, env, q)
  }

  lemma AloneStep(s: Store, env: Env, p: Proc)
    requires !p.Stopped?
    ensures Alone(s, env, p) == Alone(ProcStep(s, env, p).0, env, ProcStep(s, env, p).1)
  {
  }

  lemma AloneEnd(s: Store, env: Env, end: End)
    ensures Alone(s, env, Stopped(end)) == (s, end)
  {
  }

  function EndOf<T>(r: R<T>): End {
    match r
    case Ok(_, _) => Returned
    case Threw(_) => ThrewUp
    case Died(_) => DiedThere
  }

  // ---------------------------------------------------------------------------------------------
  // Imports
  // ---------------------------------------------------------------------------------------------

  lemma {:induction false} DrainMessageAlone(s: Store, env: Env, p: Proc)
    requires p.Draining? && p.todo != []
    ensures var (s1, keys1, end) := MessageAlone(s, p.keys, env, ImportWork(p.run, p.todo[0]), p.stage);
            Alone(s, env, p) == Alone(s1, env, p.(keys := keys1, stage := end))
    decreases Rank(p.stage)
  {
    hide Alone, MessageStep, MessageAlone;
    var w := ImportWork(p.run, p.todo[0]);
    if IsEnd(p.stage) {
      MessageAloneEnd(s, p.keys, env, w, p.stage);
    } else {
      AloneStep(s, env, p);
      MessageAloneStep(s, p.keys, env, w, p.stage);
      StepRanks(s, p.keys, env, w, p.stage);
      var (s1, q) := ProcStep(s, env, p);
      DrainMessageAlone(s1, env, q);
    }
  }

  /** What is left of an import once its drain has come to r. */
  function Closing(r: R<Stats>, env: Env, run: ImportRun, due: seq<Message>): R<Stats> {
    Finish(r, env, run.folder, run.ctx.dry, MaxReceived(due))
  }

  lemma ClosingAlone(s: Store, env: Env, run: ImportRun, due: seq<Message>, keys: set<string>, st: Stats)
    ensures var r := Closing(Ok(st, s), env, run, due);
            Alone(s, env, Draining(run, due, keys, [], Begin)) == (r.store, EndOf(r))
  {
    hide Alone, MaxReceived;
    var p := Draining(run, due, keys, [], Begin);
    AloneStep(s, env, p);
    var (s1, q) := ProcStep(s, env, p);
    if q.Stopped? {
      AloneEnd(s1, env, q.end);
    } else {
      AloneStep(s1, env, q);
      var (s2, last) := ProcStep(s1, env, q);
      AloneEnd(s2, env, last.end);
    }
  }

  lemma {:induction false} DrainAlone(s: Store, env: Env, run: ImportRun, due: seq<Message>, keys: set<string>,
                                      todo: seq<(Message, Parse)>, st: Stats)
    ensures var r := Closing(Drain(s, keys, env, run.ctx, todo, st), env, run, due);
            Alone(s, env, Draining(run, due, keys, todo, Begin)) == (r.store, EndOf(r))
    decreases |todo|
  {
    hide Alone, Process, MessageAlone, MaxReceived;
    if todo == [] {
      ClosingAlone(s, env, run, due, keys, st);
    } else {
      var p, w := Draining(run, due, keys, todo, Begin), ImportWork(run, todo[0]);
      DrainMessageAlone(s, env, p);
      MessageAloneIsProcess(s, keys, env, w);
      var (r, keys1) := Process(s, keys, env, run.ctx, todo[0].0, todo[0].1, None);
      var ended := p.(keys := keys1, stage := StageOf(r));
      AloneStep(r.store, env, ended);
      match r
      case Ok(kind, s1) => DrainAlone(s1, env, run, due, keys1, todo[1..], Count(st, kind));
      case Threw(s1) => AloneEnd(s1, env, ThrewUp);
      case Died(s1) => AloneEnd(s1, env, DiedThere);
    }
  }

  lemma LoadedAlone(s: Store, env: Env, run: ImportRun, cutoff: Option<int>)
    requires run.polled.Some? && 0 < run.size
    ensures var due := Above(run.polled.value, cutoff);
            Alone(s, env, LoadKeys(run, cutoff)) ==
            match Read(s, env)
            case Threw(s1) => (s1, ThrewUp)
            case Died(s1) => (s1, DiedThere)
            case Ok(_, s1) =>
              var d := Drain(s1, Newest(s1.txns, EXISTING_KEYS_LIMIT), env, run.ctx, Items(due, run.size, run.parser), NO_STATS);
              (Closing(d, env, run, due).store, EndOf(Closing(d, env, run, due)))
  {
    hide Alone, Drain, Items, Above, MaxReceived, Newest, Finish;
    var due := Above(run.polled.value, cutoff);
    AloneStep(s, env, LoadKeys(run, cutoff));
    match Read(s, env)
    case Threw(s1) => AloneEnd(s1, env, ThrewUp);
    case Died(s1) => AloneEnd(s1, env, DiedThere);
    case Ok(_, s1) =>
      SameNewest(s, s1);
      DrainAlone(s1, env, run, due, Newest(s1.txns, EXISTING_KEYS_LIMIT), Items(due, run.size, run.parser), NO_STATS);
  }

  lemma SameNewest(s: Store, s1: Store)
    requires s.txns == s1.txns
    ensures Newest(s.txns, EXISTING_KEYS_LIMIT) == Newest(s1.txns, EXISTING_KEYS_LIMIT)
  {
  }

  lemma WindowAlone(s: Store, env: Env, run: ImportRun)
    ensures Alone(s, env, OwnWindow(run)) ==
            match ResolveWindow(s, env, run.folder)
            case Threw(s1) => (s1, ThrewUp)
            case Died(s1) => (s1, DiedThere)
            case Ok(cutoff, s1) => Alone(s1, env, LoadKeys(run, cutoff))
  {
    hide Alone;
    AloneStep(s, env, OwnWindow(run));
    var (s1, q) := ProcStep(s, env, OwnWindow(run));
    match q
    case Stopped(end) => AloneEnd(s1, env, end);
    case LoadKeys(_, _) =>
    case LegacyWindow(_) =>
      AloneStep(s1, env, q);
      var (s2, q2) := ProcStep(s1, env, q);
      if q2.Stopped? { AloneEnd(s2, env, q2.end); }
    case _ =>
  }

  /** An import on its own is the run of its folder. */
  lemma ImportAlone(s: Store, env: Env, run: ImportRun)
    requires 0 < run.size
    ensures var r := RunFolder(s, env, run.folder, run.ctx, run.polled, run.size, run.parser);
            Alone(s, env, OwnWindow(run)) == (r.store, EndOf(r))
  {
    hide Alone, Drain, Items, Above, MaxReceived, Newest, Finish, ResolveWindow;
    WindowAlone(s, env, run);
    match ResolveWindow(s, env, run.folder)
    case Ok(cutoff, s1) =>
      if run.polled.Some? {
        LoadedAlone(s1, env, run, cutoff);
      } else {
        AloneStep(s1, env, LoadKeys(run, cutoff));
        AloneEnd(s1, env, ThrewUp);
      }
    case _ =>
  }

  // ---------------------------------------------------------------------------------------------
  // Replays and ignores
  // ---------------------------------------------------------------------------------------------

  lemma {:induction false} ReplayMessageAlone(s: Store, env: Env, p: Proc)
    requires p.Replaying? && p.items != [] && p.items[0].config.Some? && p.items[0].fetch.Found? && p.phase.Handling?
    ensures var (s1, keys1, end) := MessageAlone(s, p.keys, env, ReplayWork(p.dry, p.items[0]), p.phase.stage);
            Alone(s, env, p) == Alone(s1, env, p.(keys := keys1, phase := Handling(end)))
    decreases Rank(p.phase.stage)
  {
    hide Alone, MessageStep, MessageAlone;
    var w, stage := ReplayWork(p.dry, p.items[0]), p.phase.stage;
    if IsEnd(stage) {
      MessageAloneEnd(s, p.keys, env, w, stage);
    } else {
      AloneStep(s, env, p);
      MessageAloneStep(s, p.keys, env, w, stage);
      StepRanks(s, p.keys, env, w, stage);
      var (s1, q) := ProcStep(s, env, p);
      ReplayMessageAlone(s1, env, q);
    }
  }

  /** The last call for one failure. */
  lemma SettleAlone(s: Store, env: Env, p: Proc, status: Status)
    requires p.Replaying? && p.items != [] && p.phase == Settling(status)
    ensures var r := MarkUnlessDry(s, env, p.dry, p.items[0].row, status, 0);
            Alone(s, env, p) ==
            if r.Ok? then Alone(r.store, env, Replaying(p.dry, p.items[1..], p.keys, Marking)) else (r.store, EndOf(r))
  {
    hide Alone, MarkUnlessDry;
    AloneStep(s, env, p);
    var r := MarkUnlessDry(s, env, p.dry, p.items[0].row, status, 0);
    if !r.Ok? { AloneEnd(r.store, env, EndOf(r)); }
  }

  /** From the fetch on. */
  lemma FetchedAlone(s: Store, env: Env, p: Proc)
    requires p.Replaying? && p.items != [] && p.phase.Fetching?
    ensures var (r, keys1) := AfterMark(s, p.keys, env, p.dry, p.items[0]);
            Alone(s, env, p) ==
            if r.Ok? then Alone(r.store, env, Replaying(p.dry, p.items[1..], keys1, Marking)) else (r.store, EndOf(r))
  {
    hide Alone, MarkUnlessDry, Process, MessageAlone;
    var item := p.items[0];
    AloneStep(s, env, p);
    if item.config.None? || item.fetch.Missing? {
      SettleAlone(s, env, p.(phase := Settling(OPEN)), OPEN);
    } else if item.fetch.FetchThrows? {
      AloneEnd(s, env, ThrewUp);
    } else {
      var w, q := ReplayWork(p.dry, item), p.(phase := Handling(Begin));
      ReplayMessageAlone(s, env, q);
      MessageAloneIsProcess(s, p.keys, env, w);
      var (r, keys1) := Process(s, p.keys, env, w.ctx, w.message, w.parse, w.retry);
      var ended := q.(keys := keys1, phase := Handling(StageOf(r)));
      AloneStep(r.store, env, ended);
      match r
      case Ok(kind, s1) =>
        var status := if IsResolved(kind) then RESOLVED else OPEN;
        SettleAlone(s1, env, ended.(phase := Settling(status)), status);
      case Threw(s1) => AloneEnd(s1, env, ThrewUp);
      case Died(s1) => AloneEnd(s1, env, DiedThere);
    }
  }

  /** The rest of RetryOne, after the row was marked. */
  function AfterMark(s: Store, keys: set<string>, env: Env, dry: bool, item: RetryItem): (R<()>, set<string>) {
    if item.config.None? || item.fetch.Missing? then (MarkUnlessDry(s, env, dry, item.row, OPEN, 0), keys)
    else if item.fetch.FetchThrows? then (Threw(s), keys)
    else
      var w := ReplayWork(dry, item);
      var (r, keys1) := Process(s, keys, env, w.ctx, w.message, w.parse, w.retry);
      match r
      case Threw(s2) => (Threw(s2), keys1)
      case Died(s2) => (Died(s2), keys1)
      case Ok(kind, s2) => (MarkUnlessDry(s2, env, dry, item.row, if IsResolved(kind) then RESOLVED else OPEN, 0), keys1)
  }

  lemma RetryOneParts(s: Store, keys: set<string>, env: Env, dry: bool, item: RetryItem)
    ensures var first := MarkUnlessDry(s, env, dry, item.row, RETRYING, 1);
            RetryOne(s, keys, env, dry, item) == if first.Ok? then AfterMark(first.store, keys, env, dry, item) else (first, keys)
  {
    hide MarkUnlessDry, Process;
  }

  lemma {:induction false} RetryAllAlone(s: Store, env: Env, dry: bool, items: seq<RetryItem>, keys: set<string>)
    ensures var r := RetryAll(s, keys, env, dry, items);
            Alone(s, env, Replaying(dry, items, keys, Marking)) == (r.store, EndOf(r))
    decreases |items|
  {
    hide Alone, MarkUnlessDry, RetryOne, AfterMark;
    var p := Replaying(dry, items, keys, Marking);
    AloneStep(s, env, p);
    if items == [] {
      AloneEnd(s, env, Returned);
    } else {
      var first := MarkUnlessDry(s, env, dry, items[0].row, RETRYING, 1);
      RetryOneParts(s, keys, env, dry, items[0]);
      if first.Ok? {
        FetchedAlone(first.store, env, p.(phase := Fetching));
        var (r, keys1) := AfterMark(first.store, keys, env, dry, items[0]);
        if r.Ok? { RetryAllAlone(r.store, env, dry, items[1..], keys1); }
      } else {
        AloneEnd(first.store, env, EndOf(first));
      }
    }
  }

  /** A replay on its own is the replay of its selection. */
  lemma ReplayAlone(s: Store, env: Env, dry: bool, items: seq<RetryItem>)
    ensures var r := Retry(s, env, dry, items);
            Alone(s, env, SelectRows(dry, items)) == (r.store, EndOf(r))
  {
    hide Alone, RetryAll, Newest;
    AloneStep(s, env, SelectRows(dry, items));
    var r1 := Read(s, env);
    if !r1.Ok? {
      AloneEnd(r1.store, env, EndOf(r1));
    } else {
      AloneStep(r1.store, env, ReplayKeys(dry, items));
      var r2 := Read(r1.store, env);
      if !r2.Ok? {
        AloneEnd(r2.store, env, EndOf(r2));
      } else {
        var keys := Newest(r1.store.txns, EXISTING_KEYS_LIMIT);
        AloneStep(r2.store, env, ReplayCards(dry, items, keys));
        var r3 := Read(r2.store, env);
        if !r3.Ok? { AloneEnd(r3.store, env, EndOf(r3)); }
        else { RetryAllAlone(r3.store, env, dry, items, keys); }
      }
    }
  }

  lemma {:induction false} IgnoringAlone(s: Store, env: Env, rows: seq<RowKey>)
    ensures Alone(s, env, Ignoring(rows)) == (IgnoreAll(s, env, rows).store, EndOf(IgnoreAll(s, env, rows)))
    decreases |rows|
  {
    hide Alone, UpdateStatus;
    AloneStep(s, env, Ignoring(rows));
    if rows == [] {
      AloneEnd(s, env, Returned);
    } else {
      var r := UpdateStatus(s, env, rows[0], IGNORED, 0);
      if r.Ok? { IgnoringAlone(r.store, env, rows[1..]); } else { AloneEnd(r.store, env, EndOf(r)); }
    }
  }

  lemma IgnoreAlone(s: Store, env: Env, rows: seq<RowKey>)
    ensures Alone(s, env, IgnoreSelect(rows)) == (IgnoreFailures(s, env, rows).store, EndOf(IgnoreFailures(s, env, rows)))
  {
    hide Alone, IgnoreAll;
    AloneStep(s, env, IgnoreSelect(rows));
    var r := Read(s, env);
    if r.Ok? { IgnoringAlone(r.store, env, rows); } else { AloneEnd(r.store, env, EndOf(r)); }
  }

  /** And to run it alone is a schedule that names it again and again. */
  lemma {:induction false} AloneIsSchedule(s: Store, env: Env, p: Proc) returns (steps: nat)
    ensures var sys := Execute(System(s, [p]), env, seq(steps, _ => 0));
            sys.procs == [Stopped(Alone(s, env, p).1)] && sys.db == Alone(s, env, p).0
    decreases Section(p), Left(p), Place(p)
  {
    hide ProcStep;
    if p.Stopped? {
      steps := 0;
    } else {
      StepGetsOn(s, env, p);
      var (s1, q) := ProcStep(s, env, p);
      steps := AloneIsSchedule(s1, env, q);
      assert Act(System(s, [p]), env, 0) == System(s1, [q]) by { assert [p][0 := q] == [q]; }
      var all := seq(steps + 1, _ => 0);
      assert all[0] == 0 && all[1..] == seq(steps, _ => 0);
      steps := steps + 1;
    }
  }
}
