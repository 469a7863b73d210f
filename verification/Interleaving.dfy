/**
 The same transactions cut into the steps a database runs: take a lock, read one table, check, write,
 commit. Any number of clients interleave. FD and goal transactions share the advisory lock of the
 tenant; investment transactions share the investments lock; a plan write takes the investments lock,
 writes its plan row, and then takes the tenant lock. Locks are held until commit or abort; a read
 sees the last committed state; writes are row-level and become visible at commit.
 */
module Interleaving {
  import opened Wrappers
  import opened FdLedger
  import opened Books
  import BooksInvariant

  datatype Table = PlansT | OpeningT | FdT | SalesT | GoalsT | MovesT

  /** What a transaction has read so far, table by table. */
  datatype View = View(plans: Option<seq<PlanRow>>, opening: Option<Opening>, fd: Option<Ledger>, sales: Option<Sales>,
                       goals: Option<set<string>>, moves: Option<GoalMoves>)

  datatype Client =
    | Idle
    | Running(op: Op, holdsInvestments: bool, holdsTenant: bool, view: View, saved: Option<Plan>, effects: Option<seq<Effect>>)

  datatype System = System(db: Tables, clients: seq<Client>)

  datatype Action =
    | Begin(op: Op)
    | LockInvestments
    | LockTenant
    | Read(table: Table)
    | SavePlan
    | Check
    | Commit
    | Abort

  const NOTHING_READ := View(None, None, None, None, None, None)

  predicate NeedsInvestments(op: Op) {
    op.UpsertPlan? || op.SetOpening? || op.Sell? || op.UndoSale?
  }

  predicate NeedsTenant(op: Op) {
    op.UpsertPlan? || op.BreakFd? || op.UndoFd? || op.BreakGoal? || op.UndoGoal?
  }

  /** The tables the service reads in this transaction. */
  predicate Needs(op: Op, table: Table) {
    match op
    case UpsertPlan(_, _) => table.PlansT? || table.OpeningT? || table.SalesT? || table.FdT?
    case SetOpening(_) => table.PlansT? || table.SalesT?
    case Sell(_, _) => table.PlansT? || table.OpeningT? || table.SalesT?
    case UndoSale(_) => table.SalesT?
    case BreakFd(_, _) => table.FdT?
    case UndoFd(_) => table.FdT?
    case BreakGoal(_, _) => table.GoalsT? || table.PlansT? || table.MovesT?
    case UndoGoal(_) => table.MovesT?
  }

  predicate Writes(op: Op, table: Table) {
    match op
    case UpsertPlan(_, _) => table.PlansT? || table.FdT?
    case SetOpening(_) => table.OpeningT?
    case Sell(_, _) => table.SalesT?
    case UndoSale(_) => table.SalesT?
    case BreakFd(_, _) => table.FdT?
    case UndoFd(_) => table.FdT?
    case BreakGoal(_, _) => table.MovesT?
    case UndoGoal(_) => table.MovesT?
  }

  predicate HasRead(view: View, table: Table) {
    match table
    case PlansT => view.plans.Some?
    case OpeningT => view.opening.Some?
    case FdT => view.fd.Some?
    case SalesT => view.sales.Some?
    case GoalsT => view.goals.Some?
    case MovesT => view.moves.Some?
  }

  function Look(view: View, db: Tables, table: Table): View {
    match table
    case PlansT => view.(plans := Some(db.plans))
    case OpeningT => view.(opening := Some(db.opening))
    case FdT => view.(fd := Some(db.fd))
    case SalesT => view.(sales := Some(db.sales))
    case GoalsT => view.(goals := Some(db.goals))
    case MovesT => view.(moves := Some(db.moves))
  }

  predicate Same(a: Tables, b: Tables, table: Table) {
    match table
    case PlansT => a.plans == b.plans
    case OpeningT => a.opening == b.opening
    case FdT => a.fd == b.fd
    case SalesT => a.sales == b.sales
    case GoalsT => a.goals == b.goals
    case MovesT => a.moves == b.moves
  }

  /** The tables as the transaction has seen them; unread ones are blank and never looked at. */
  function Seen(view: View): Tables {
    Tables(view.plans.GetOr([]), view.opening.GetOr(Opening(0, 0, 0)), view.fd.GetOr(Ledger([], 0)),
           view.sales.GetOr(Sales([], 0)), view.goals.GetOr({}), view.moves.GetOr(GoalMoves([], 0)))
  }

  /** Reads come after the lock: a plan write reads FD rows under the tenant lock, the rest before. */
  predicate MayRead(c: Client, table: Table)
    requires c.Running?
  {
    && Needs(c.op, table)
    && if c.op.UpsertPlan? then (if table.FdT? then c.holdsTenant else c.holdsInvestments)
       else (NeedsInvestments(c.op) ==> c.holdsInvestments) && (NeedsTenant(c.op) ==> c.holdsTenant)
  }

  predicate InvestmentsFree(s: System) {
    forall i :: 0 <= i < |s.clients| ==> !(s.clients[i].Running? && s.clients[i].holdsInvestments)
  }

  predicate TenantFree(s: System) {
    forall i :: 0 <= i < |s.clients| ==> !(s.clients[i].Running? && s.clients[i].holdsTenant)
  }

  predicate ReadAll(c: Client)
    requires c.Running?
  {
    forall table :: Needs(c.op, table) ==> HasRead(c.view, table)
  }

  /** A plan request passes its validation on what was read under the investments lock. */
  predicate PlanPasses(c: Client)
    requires c.Running? && c.op.UpsertPlan?
  {
    && HasRead(c.view, PlansT) && HasRead(c.view, OpeningT) && HasRead(c.view, SalesT)
    && RequestedPacket(c.op.dto).Success?
    && ValidatePlanWrite(c.view.plans.value, c.view.opening.value, c.view.sales.value.rows, c.op.period,
                         c.op.dto.sipMf, c.op.dto.stocks).Success?
  }

  /** What the transaction decides from what it has read; None while it may not decide or when it rejects. */
  function Checked(c: Client): Option<seq<Effect>>
    requires c.Running?
  {
    if c.op.UpsertPlan? then
      if c.saved.Some? && c.view.fd.Some? && Sync(c.view.fd.value, c.op.period, c.saved.value.fd).Success? then
        Some([PutPlan(c.op.period, c.saved.value), PutLot(c.op.period, c.saved.value.fd)])
      else None
    else
      if ReadAll(c) && Decide(Seen(c.view), c.op).Success? then Some(Decide(Seen(c.view), c.op).value) else None
  }

  predicate Enabled(s: System, i: nat, a: Action)
    requires i < |s.clients|
  {
    var c := s.clients[i];
    match a
    case Begin(_) => c.Idle?
    case LockInvestments => c.Running? && NeedsInvestments(c.op) && InvestmentsFree(s)
    case LockTenant => c.Running? && NeedsTenant(c.op) && (c.op.UpsertPlan? ==> c.saved.Some?) && TenantFree(s)
    case Read(table) => c.Running? && c.effects.None? && MayRead(c, table)
    case SavePlan => c.Running? && c.op.UpsertPlan? && c.saved.None? && c.holdsInvestments && PlanPasses(c)
    case Check => c.Running? && c.effects.None? && Checked(c).Some?
    case Commit => c.Running? && c.effects.Some?
    case Abort => c.Running?
  }

  function Moved(s: System, i: nat, a: Action): Client
    requires i < |s.clients| && Enabled(s, i, a)
  {
    var c := s.clients[i];
    match a
    case Begin(op) => Running(op, false, false, NOTHING_READ, None, None)
    case LockInvestments => c.(holdsInvestments := true)
    case LockTenant => c.(holdsTenant := true)
    case Read(table) => c.(view := Look(c.view, s.db, table))
    case SavePlan =>
      c.(saved := Some(Merged(Current(s.db.plans, c.op.period), c.op.dto, RequestedPacket(c.op.dto).value)))
    case Check => c.(effects := Some(Checked(c).value))
    case Commit => Idle
    case Abort => Idle
  }

  /** One step of client i; an action that is not enabled waits, which changes nothing. */
  function Act(s: System, i: nat, a: Action): System {
    if i < |s.clients| && Enabled(s, i, a) then
      System(if a.Commit? then ApplyAll(s.db, s.clients[i].effects.value) else s.db,
             s.clients[i := Moved(s, i, a)])
    else s
  }

  function Execute(s: System, schedule: seq<(nat, Action)>): System
    decreases |schedule|
  {
    if schedule == [] then s else Execute(Act(s, schedule[0].0, schedule[0].1), schedule[1..])
  }

  /** The transactions of a schedule in the order they commit. */
  function Committed(s: System, schedule: seq<(nat, Action)>): seq<Op>
    decreases |schedule|
  {
    if schedule == [] then []
    else
      var (i, a) := schedule[0];
      (if i < |s.clients| && Enabled(s, i, a) && a.Commit? then [s.clients[i].op] else [])
      + Committed(Act(s, i, a), schedule[1..])
  }

  function Start(db: Tables, clients: nat): System {
    System(db, seq(clients, _ => Idle))
  }

  // ---------------------------------------------------------------------------------------------
  // The invariant
  // ---------------------------------------------------------------------------------------------

  ghost predicate LocksExclusive(clients: seq<Client>) {
    forall i, j :: 0 <= i < |clients| && 0 <= j < |clients| && i != j && clients[i].Running? && clients[j].Running? ==>
                     && !(clients[i].holdsInvestments && clients[j].holdsInvestments)
                     && !(clients[i].holdsTenant && clients[j].holdsTenant)
  }

  /** What was read is guarded by a held lock and still what is stored. */
  ghost predicate ViewCurrent(db: Tables, c: Client)
    requires c.Running?
  {
    forall table :: HasRead(c.view, table) ==> MayRead(c, table) && Same(Seen(c.view), db, table)
  }

  ghost predicate SavedCurrent(db: Tables, c: Client)
    requires c.Running?
  {
    c.saved.Some? ==>
      && c.op.UpsertPlan? && c.holdsInvestments
      && RequestedPacket(c.op.dto).Success?
      && ValidatePlanWrite(db.plans, db.opening, db.sales.rows, c.op.period, c.op.dto.sipMf, c.op.dto.stocks).Success?
      && c.saved.value == Merged(Current(db.plans, c.op.period), c.op.dto, RequestedPacket(c.op.dto).value)
  }

  /** Writes waiting for commit are those the atomic transaction would make on the tables as they are. */
  ghost predicate EffectsCurrent(db: Tables, c: Client)
    requires c.Running?
  {
    c.effects.Some? ==>
      && (NeedsInvestments(c.op) ==> c.holdsInvestments)
      && (NeedsTenant(c.op) ==> c.holdsTenant)
      && Decide(db, c.op) == Success(c.effects.value)
  }

  ghost predicate ClientOk(db: Tables, c: Client) {
    c.Running? ==>
      && (c.holdsInvestments ==> NeedsInvestments(c.op))
      && (c.holdsTenant ==> NeedsTenant(c.op) && (c.op.UpsertPlan? ==> c.saved.Some?))
      && ViewCurrent(db, c) && SavedCurrent(db, c) && EffectsCurrent(db, c)
  }

  ghost predicate Consistent(s: System) {
    && LocksExclusive(s.clients)
    && forall c <- s.clients :: ClientOk(s.db, c)
  }

  // ---------------------------------------------------------------------------------------------
  // Frames
  // ---------------------------------------------------------------------------------------------

  /** A decision depends only on the tables its transaction reads. */
  lemma DecideFrame(a: Tables, b: Tables, op: Op)
    requires forall table :: Needs(op, table) ==> Same(a, b, table)
    ensures Decide(a, op) == Decide(b, op)
  {
    assert Needs(op, PlansT) ==> Same(a, b, PlansT);
    assert Needs(op, OpeningT) ==> Same(a, b, OpeningT);
    assert Needs(op, FdT) ==> Same(a, b, FdT);
    assert Needs(op, SalesT) ==> Same(a, b, SalesT);
    assert Needs(op, GoalsT) ==> Same(a, b, GoalsT);
    assert Needs(op, MovesT) ==> Same(a, b, MovesT);
  }

  /** A commit changes only the tables its transaction writes. */
  lemma CommitFrame(db: Tables, op: Op, table: Table)
    requires Decide(db, op).Success? && !Writes(op, table)
    ensures Same(db, ApplyAll(db, Decide(db, op).value), table)
  {
    var effects := Decide(db, op).value;
    if op.UpsertPlan? {
      BooksInvariant.ApplyTwo(db, effects[0], effects[1]);
      assert effects == [effects[0], effects[1]];
    } else {
      BooksInvariant.ApplySingle(db, effects[0]);
      assert effects == [effects[0]];
    }
  }

  /** A client is untouched by a change to tables it holds no lock for. */
  lemma ClientFrame(db: Tables, after: Tables, c: Client)
    requires ClientOk(db, c) && c.Running?
    requires forall table :: MayRead(c, table) ==> Same(db, after, table)
    ensures ClientOk(after, c)
  {
    forall table | HasRead(c.view, table) ensures Same(Seen(c.view), after, table) {
      assert MayRead(c, table) && Same(db, after, table);
    }
    if c.saved.Some? {
      assert MayRead(c, PlansT) && MayRead(c, OpeningT) && MayRead(c, SalesT);
      assert Same(db, after, PlansT) && Same(db, after, OpeningT) && Same(db, after, SalesT);
    }
    if c.effects.Some? {
      forall table | Needs(c.op, table) ensures Same(db, after, table) {
        assert MayRead(c, table);
      }
      DecideFrame(db, after, c.op);
    }
  }

  /** While one client is ready to commit, no other holds a lock for a table it writes. */
  lemma WritesGuarded(c: Client, d: Client, table: Table)
    requires c.Running? && d.Running?
    requires NeedsInvestments(c.op) ==> c.holdsInvestments
    requires NeedsTenant(c.op) ==> c.holdsTenant
    requires !(c.holdsInvestments && d.holdsInvestments) && !(c.holdsTenant && d.holdsTenant)
    requires Writes(c.op, table)
    ensures !MayRead(d, table)
  {
  }

  // ---------------------------------------------------------------------------------------------
  // Refinement
  // ---------------------------------------------------------------------------------------------

  /** A plan write that passed both checks is the atomic plan write. */
  lemma PlanChecked(db: Tables, c: Client)
    requires c.Running? && c.op.UpsertPlan? && ClientOk(db, c) && Checked(c).Some?
    ensures Decide(db, c.op) == Success(Checked(c).value)
  {
    assert HasRead(c.view, FdT);
    assert Same(Seen(c.view), db, FdT);
  }

  lemma OtherChecked(db: Tables, c: Client)
    requires c.Running? && !c.op.UpsertPlan? && ClientOk(db, c) && Checked(c).Some?
    ensures Decide(db, c.op) == Success(Checked(c).value)
    ensures NeedsInvestments(c.op) ==> c.holdsInvestments
    ensures NeedsTenant(c.op) ==> c.holdsTenant
  {
    forall table | Needs(c.op, table) ensures Same(Seen(c.view), db, table) && MayRead(c, table) {
      assert HasRead(c.view, table);
    }
    DecideFrame(Seen(c.view), db, c.op);
    assert Needs(c.op, if c.op.BreakFd? || c.op.UndoFd? then FdT
                       else if c.op.BreakGoal? || c.op.UndoGoal? then MovesT else SalesT);
  }

  lemma OwnStep(s: System, i: nat, a: Action)
    requires Consistent(s) && i < |s.clients| && Enabled(s, i, a) && !a.Commit?
    ensures ClientOk(s.db, Moved(s, i, a))
  {
    var c := s.clients[i];
    assert c in s.clients;
    match a
    case Begin(op) =>
    case LockInvestments =>
    case LockTenant =>
    case Read(table) =>
      var next := Moved(s, i, a);
      forall t | HasRead(next.view, t) ensures MayRead(next, t) && Same(Seen(next.view), s.db, t) {
        if t != table { assert HasRead(c.view, t); }
      }
    case SavePlan =>
      assert HasRead(c.view, PlansT) && HasRead(c.view, OpeningT) && HasRead(c.view, SalesT);
      assert Same(Seen(c.view), s.db, PlansT) && Same(Seen(c.view), s.db, OpeningT) && Same(Seen(c.view), s.db, SalesT);
    case Check =>
      if c.op.UpsertPlan? {
        PlanChecked(s.db, c);
        assert HasRead(c.view, FdT);
        assert MayRead(c, FdT);
      } else {
        OtherChecked(s.db, c);
      }
    case Abort =>
  }

  lemma CommitOthers(s: System, i: nat, d: Client, k: nat)
    requires Consistent(s) && i < |s.clients| && Enabled(s, i, Commit)
    requires k < |s.clients| && k != i && d == s.clients[k]
    ensures ClientOk(ApplyAll(s.db, s.clients[i].effects.value), d)
  {
    var c := s.clients[i];
    var after := ApplyAll(s.db, c.effects.value);
    assert c in s.clients && d in s.clients;
    if d.Running? {
      forall table | MayRead(d, table) ensures Same(s.db, after, table) {
        if Writes(c.op, table) { WritesGuarded(c, d, table); }
        CommitFrame(s.db, c.op, table);
      }
      ClientFrame(s.db, after, d);
    }
  }

  lemma ActLocks(s: System, i: nat, a: Action)
    requires Consistent(s)
    ensures LocksExclusive(Act(s, i, a).clients)
  {
  }

  /** Every step keeps the invariant, and changes the stored tables only by committing one atomic
      transaction on them. */
  lemma StepRefines(s: System, i: nat, a: Action)
    requires Consistent(s)
    ensures Consistent(Act(s, i, a))
    ensures Act(s, i, a).db ==
            if i < |s.clients| && Enabled(s, i, a) && a.Commit? then Apply(s.db, s.clients[i].op) else s.db
  {
    ActLocks(s, i, a);
    if i < |s.clients| && Enabled(s, i, a) {
      var next := Act(s, i, a);
      assert s.clients[i] in s.clients;
      forall c <- next.clients ensures ClientOk(next.db, c) {
        var k :| 0 <= k < |next.clients| && next.clients[k] == c;
        if k == i {
          if !a.Commit? { OwnStep(s, i, a); }
        } else {
          assert c == s.clients[k] && c in s.clients;
          if a.Commit? { CommitOthers(s, i, c, k); }
        }
      }
    }
  }

  /** Every interleaving of any number of clients leaves the tables as the committed transactions
      would, run one after the other in commit order. */
  lemma {:induction false} Serializable(s: System, schedule: seq<(nat, Action)>)
    requires Consistent(s)
    ensures Consistent(Execute(s, schedule))
    ensures Execute(s, schedule).db == Run(s.db, Committed(s, schedule))
    decreases |schedule|
  {
    hide Act, Apply, Consistent;
    if schedule != [] {
      var (i, a) := schedule[0];
      var next := Act(s, i, a);
      StepRefines(s, i, a);
      Serializable(next, schedule[1..]);
      var rest := Committed(next, schedule[1..]);
      if i < |s.clients| && Enabled(s, i, a) && a.Commit? {
        assert ([s.clients[i].op] + rest)[1..] == rest;
      } else {
        assert [] + rest == rest;
      }
    }
  }

  lemma StartConsistent(db: Tables, clients: nat)
    ensures Consistent(Start(db, clients))
  {
  }

  /** Every schedule from empty books keeps the FD and investment invariants. */
  lemma EveryScheduleSound(goals: set<string>, clients: nat, schedule: seq<(nat, Action)>)
    ensures BooksInvariant.Sound(Execute(Start(Empty(goals), clients), schedule).db)
  {
    hide Consistent, BooksInvariant.Sound, Execute, Committed, Run, Empty;
    var s := Start(Empty(goals), clients);
    StartConsistent(Empty(goals), clients);
    Serializable(s, schedule);
    BooksInvariant.EveryRunSound(goals, Committed(s, schedule));
  }

  // ---------------------------------------------------------------------------------------------
  // Lock order
  // ---------------------------------------------------------------------------------------------

  ghost predicate WaitsForLock(c: Client) {
    c.Running? && ((NeedsInvestments(c.op) && !c.holdsInvestments)
                   || (NeedsTenant(c.op) && !c.holdsTenant && (c.op.UpsertPlan? ==> c.saved.Some?)))
  }

  /** The holder of the tenant lock waits for nothing. */
  lemma HolderRuns(s: System, k: nat)
    requires Consistent(s) && k < |s.clients| && s.clients[k].Running? && s.clients[k].holdsTenant
    ensures !WaitsForLock(s.clients[k])
  {
    assert s.clients[k] in s.clients;
  }

  /** With the tenant lock free, either the holder of the investments lock or the waiting client gets on. */
  lemma SomeLockFree(s: System, i: nat)
    requires Consistent(s) && i < |s.clients| && WaitsForLock(s.clients[i]) && TenantFree(s)
    requires forall k :: 0 <= k < |s.clients| && s.clients[k].Running? ==> WaitsForLock(s.clients[k])
    ensures exists k :: 0 <= k < |s.clients| && (Enabled(s, k, LockInvestments) || Enabled(s, k, LockTenant))
  {
    if InvestmentsFree(s) {
      assert Enabled(s, i, LockInvestments) || Enabled(s, i, LockTenant);
    } else {
      var c :| c in s.clients && c.Running? && c.holdsInvestments;
      var k :| 0 <= k < |s.clients| && s.clients[k] == c;
      assert WaitsForLock(s.clients[k]);
      assert Enabled(s, k, LockTenant);
    }
  }

  /** No deadlock: whenever some client waits for a lock, a running client does not wait, or a lock that
      some client waits for is free. */
  lemma NoDeadlock(s: System, i: nat)
    requires Consistent(s) && i < |s.clients| && WaitsForLock(s.clients[i])
    ensures exists k :: 0 <= k < |s.clients| && s.clients[k].Running?
                        && (!WaitsForLock(s.clients[k]) || Enabled(s, k, LockInvestments) || Enabled(s, k, LockTenant))
  {
    if forall k :: 0 <= k < |s.clients| && s.clients[k].Running? ==> WaitsForLock(s.clients[k]) {
      if !TenantFree(s) {
        var c :| c in s.clients && c.Running? && c.holdsTenant;
        var k :| 0 <= k < |s.clients| && s.clients[k] == c;
        HolderRuns(s, k);
      } else {
        SomeLockFree(s, i);
      }
    }
  }
}
