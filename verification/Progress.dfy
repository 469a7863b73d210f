/**
 What interleaved clients achieve: with the locks free, a transaction that the service accepts can be
 stepped to its commit, and its commit is exactly the atomic transaction; a transaction that the service
 rejects never commits; and the committed transactions of any schedule were all accepted in their turn.
 */
module Progress {
  import opened Wrappers
  import opened FdLedger
  import opened Books
  import opened Interleaving

  // ---------------------------------------------------------------------------------------------
  // Schedules
  // ---------------------------------------------------------------------------------------------

  lemma {:induction false} ExecuteAppend(s: System, first: seq<(nat, Action)>, second: seq<(nat, Action)>)
    ensures Execute(s, first + second) == Execute(Execute(s, first), second)
    ensures Committed(s, first + second) == Committed(s, first) + Committed(Execute(s, first), second)
    decreases |first|
  {
    hide Act, Enabled;
    if first == [] {
      assert first + second == second;
    } else {
      assert (first + second)[1..] == first[1..] + second && (first + second)[0] == first[0];
      ExecuteAppend(Act(s, first[0].0, first[0].1), first[1..], second);
    }
  }

  lemma ExecuteOne(s: System, i: nat, a: Action)
    ensures Execute(s, [(i, a)]) == Act(s, i, a)
    ensures !a.Commit? ==> Committed(s, [(i, a)]) == []
    ensures a.Commit? && i < |s.clients| && Enabled(s, i, a) ==> Committed(s, [(i, a)]) == [s.clients[i].op]
  {
    hide Act, Enabled;
    assert [(i, a)][1..] == [];
  }

  /** One more step of a schedule that has committed nothing yet. */
  lemma Extend(s: System, schedule: seq<(nat, Action)>, i: nat, a: Action)
    requires Committed(s, schedule) == [] && !a.Commit?
    ensures Execute(s, schedule + [(i, a)]) == Act(Execute(s, schedule), i, a)
    ensures Committed(s, schedule + [(i, a)]) == []
  {
    hide Act, Enabled, Execute, Committed;
    ExecuteAppend(s, schedule, [(i, a)]);
    ExecuteOne(Execute(s, schedule), i, a);
  }

  // ---------------------------------------------------------------------------------------------
  // An accepted transaction commits
  // ---------------------------------------------------------------------------------------------

  /** No other client holds a lock. */
  ghost predicate Alone(s: System, i: nat) {
    forall k :: 0 <= k < |s.clients| && k != i && s.clients[k].Running? ==>
                  !s.clients[k].holdsInvestments && !s.clients[k].holdsTenant
  }

  function Put(s: System, i: nat, c: Client): System
    requires i < |s.clients|
  {
    System(s.db, s.clients[i := c])
  }

  function Took(op: Op, investments: bool, tenant: bool, view: View, saved: Option<Plan>): Client {
    Running(op, investments, tenant, view, saved, None)
  }

  lemma BeginStep(s: System, i: nat, op: Op)
    requires i < |s.clients| && s.clients[i].Idle?
    ensures Act(s, i, Begin(op)) == Put(s, i, Took(op, false, false, NOTHING_READ, None))
  {
  }

  lemma InvestmentsStep(s: System, i: nat, op: Op)
    requires i < |s.clients| && Alone(s, i)
    ensures Act(Put(s, i, Took(op, false, false, NOTHING_READ, None)), i, LockInvestments) ==
            Put(s, i, Took(op, NeedsInvestments(op), false, NOTHING_READ, None))
  {
    var t := Put(s, i, Took(op, false, false, NOTHING_READ, None));
    assert t.clients[i := t.clients[i]] == t.clients;
    assert t.clients[i := Took(op, true, false, NOTHING_READ, None)] == s.clients[i := Took(op, true, false, NOTHING_READ, None)];
  }

  /** The tenant lock, when it is due: for a plan write only once the plan row is saved. */
  lemma TenantStep(s: System, i: nat, op: Op, investments: bool, view: View, saved: Option<Plan>)
    requires i < |s.clients| && Alone(s, i)
    ensures var due := NeedsTenant(op) && (op.UpsertPlan? ==> saved.Some?);
            Act(Put(s, i, Took(op, investments, false, view, saved)), i, LockTenant) == Put(s, i, Took(op, investments, due, view, saved))
  {
    var t := Put(s, i, Took(op, investments, false, view, saved));
    assert t.clients[i := Took(op, investments, true, view, saved)] == s.clients[i := Took(op, investments, true, view, saved)];
  }

  lemma ReadStep(s: System, i: nat, c: Client, table: Table)
    requires i < |s.clients| && c.Running? && c.effects.None?
    ensures Act(Put(s, i, c), i, Read(table)) ==
            Put(s, i, if MayRead(c, table) then c.(view := Look(c.view, s.db, table)) else c)
  {
    hide MayRead, Look;
    var t := Put(s, i, c);
    assert t.clients[i := c.(view := Look(c.view, s.db, table))] == s.clients[i := c.(view := Look(c.view, s.db, table))];
  }

  /** What was read is what is stored. */
  ghost predicate Fresh(db: Tables, view: View) {
    forall table :: HasRead(view, table) ==> Same(Seen(view), db, table)
  }

  lemma LookFresh(db: Tables, view: View, table: Table)
    requires Fresh(db, view)
    ensures Fresh(db, Look(view, db, table))
    ensures forall t :: HasRead(Look(view, db, table), t) <==> t == table || HasRead(view, t)
  {
    forall t | HasRead(Look(view, db, table), t) ensures Same(Seen(Look(view, db, table)), db, t) {
      if t != table { assert HasRead(view, t) && Same(Seen(view), db, t); }
    }
  }

  lemma SameRights(c: Client, d: Client)
    requires c.Running? && d.Running? && d == c.(view := d.view)
    ensures forall table :: MayRead(c, table) == MayRead(d, table)
  {
  }

  function Reads(i: nat, tables: seq<Table>): seq<(nat, Action)> {
    if tables == [] then [] else [(i, Read(tables[0]))] + Reads(i, tables[1..])
  }

  /** Reading tables one after the other reads those that may be read. */
  lemma {:induction false} ReadThem(s: System, i: nat, c: Client, tables: seq<Table>) returns (view: View)
    requires i < |s.clients| && c.Running? && c.effects.None? && Fresh(s.db, c.view)
    ensures Execute(Put(s, i, c), Reads(i, tables)) == Put(s, i, c.(view := view))
    ensures Committed(Put(s, i, c), Reads(i, tables)) == [] && Fresh(s.db, view)
    ensures forall t :: HasRead(view, t) <==> HasRead(c.view, t) || (t in tables && MayRead(c, t))
    decreases |tables|
  {
    hide Act, MayRead, Look, Enabled, HasRead, Fresh, Put;
    view := c.view;
    if tables == [] {
      assert c.(view := c.view) == c;
    } else {
      var head, rest := tables[0], tables[1..];
      var c1 := if MayRead(c, head) then c.(view := Look(c.view, s.db, head)) else c;
      ReadStep(s, i, c, head);
      LookFresh(s.db, c.view, head);
      SameRights(c, c1);
      view := ReadThem(s, i, c1, rest);
      ReadsStep(Put(s, i, c), i, head, rest);
      assert forall t :: t in tables <==> t == head || t in rest;
    }
  }

  lemma ReadsStep(s: System, i: nat, head: Table, rest: seq<Table>)
    ensures var steps := [(i, Read(head))] + Reads(i, rest);
            && Execute(s, steps) == Execute(Act(s, i, Read(head)), Reads(i, rest))
            && Committed(s, steps) == Committed(Act(s, i, Read(head)), Reads(i, rest))
  {
    hide Act, Enabled;
    var steps := [(i, Read(head))] + Reads(i, rest);
    assert steps[0] == (i, Read(head)) && steps[1..] == Reads(i, rest);
  }

  lemma CheckStep(s: System, i: nat, c: Client, effects: seq<Effect>)
    requires i < |s.clients| && c.Running? && c.effects.None? && Checked(c) == Some(effects)
    ensures Act(Put(s, i, c), i, Check) == Put(s, i, c.(effects := Some(effects)))
  {
    hide Checked;
    var t := Put(s, i, c);
    assert t.clients[i := c.(effects := Some(effects))] == s.clients[i := c.(effects := Some(effects))];
  }

  /** The commit applies the effects and leaves the client, and every other one, as before. */
  lemma CommitStep(s: System, i: nat, c: Client, effects: seq<Effect>)
    requires i < |s.clients| && s.clients[i].Idle? && c.Running? && c.effects == Some(effects)
    ensures Act(Put(s, i, c), i, Commit) == System(ApplyAll(s.db, effects), s.clients)
    ensures Committed(Put(s, i, c), [(i, Commit)]) == [c.op]
  {
    hide ApplyAll;
    var t := Put(s, i, c);
    assert t.clients[i := Idle] == s.clients;
    ExecuteOne(t, i, Commit);
  }

  /** From a client that has read and checked all it needs, the commit is the atomic transaction. */
  lemma Finishes(s: System, schedule: seq<(nat, Action)>, i: nat, c: Client, op: Op)
    requires i < |s.clients| && s.clients[i].Idle? && Decide(s.db, op).Success?
    requires Execute(s, schedule) == Put(s, i, c) && Committed(s, schedule) == []
    requires c.Running? && c.op == op && c.effects.None? && Checked(c) == Some(Decide(s.db, op).value)
    ensures var all := schedule + [(i, Check)] + [(i, Commit)];
            Execute(s, all) == System(Apply(s.db, op), s.clients) && Committed(s, all) == [op]
  {
    hide Act, Enabled, Execute, Committed, Checked, Decide, Put, ApplyAll;
    var effects := Decide(s.db, op).value;
    Extend(s, schedule, i, Check);
    CheckStep(s, i, c, effects);
    var checked := schedule + [(i, Check)];
    ExecuteAppend(s, checked, [(i, Commit)]);
    CommitStep(s, i, c.(effects := Some(effects)), effects);
    ExecuteOne(Put(s, i, c.(effects := Some(effects))), i, Commit);
  }

  const ALL_TABLES := [PlansT, OpeningT, FdT, SalesT, GoalsT, MovesT]

  lemma EveryTable(table: Table)
    ensures table in ALL_TABLES
  {
    match table
    case PlansT => assert ALL_TABLES[0] == table;
    case OpeningT => assert ALL_TABLES[1] == table;
    case FdT => assert ALL_TABLES[2] == table;
    case SalesT => assert ALL_TABLES[3] == table;
    case GoalsT => assert ALL_TABLES[4] == table;
    case MovesT => assert ALL_TABLES[5] == table;
  }

  lemma NothingFresh(db: Tables)
    ensures Fresh(db, NOTHING_READ) && forall t :: !HasRead(NOTHING_READ, t)
  {
  }

  /** A decision on a view that holds all it needs is the decision on the tables. */
  lemma SeenDecides(db: Tables, c: Client)
    requires c.Running? && !c.op.UpsertPlan? && Fresh(db, c.view) && Decide(db, c.op).Success?
    requires forall t :: Needs(c.op, t) ==> HasRead(c.view, t)
    ensures Checked(c) == Some(Decide(db, c.op).value)
  {
    hide Decide, Seen, HasRead, Same;
    DecideFrame(Seen(c.view), db, c.op);
  }

  lemma OpenSteps(s: System, i: nat, op: Op)
    requires i < |s.clients| && s.clients[i].Idle? && Alone(s, i)
    ensures var steps := [(i, Begin(op))] + [(i, LockInvestments)];
            && Execute(s, steps) == Put(s, i, Took(op, NeedsInvestments(op), false, NOTHING_READ, None))
            && Committed(s, steps) == []
  {
    hide Act, Enabled, Put, Alone;
    ExecuteOne(s, i, Begin(op));
    BeginStep(s, i, op);
    Extend(s, [(i, Begin(op))], i, LockInvestments);
    InvestmentsStep(s, i, op);
  }

  lemma OwnRights(op: Op, view: View)
    requires !op.UpsertPlan?
    ensures forall t :: MayRead(Took(op, NeedsInvestments(op), NeedsTenant(op), view, None), t) <==> Needs(op, t)
  {
  }

  /** Every transaction but the plan write: lock, read, check, commit. */
  lemma OtherCommits(s: System, i: nat, op: Op) returns (schedule: seq<(nat, Action)>)
    requires i < |s.clients| && s.clients[i].Idle? && Alone(s, i) && !op.UpsertPlan? && Decide(s.db, op).Success?
    ensures forall step <- schedule :: step.0 == i
    ensures Execute(s, schedule) == System(Apply(s.db, op), s.clients) && Committed(s, schedule) == [op]
  {
    hide Act, Enabled, Execute, Committed, Checked, Decide, Put, Apply, MayRead, HasRead, Needs, Fresh, Alone, ALL_TABLES;
    hide NeedsInvestments, NeedsTenant, NOTHING_READ;
    var entered := [(i, Begin(op))] + [(i, LockInvestments)];
    OpenSteps(s, i, op);
    Extend(s, entered, i, LockTenant);
    TenantStep(s, i, op, NeedsInvestments(op), NOTHING_READ, None);
    var c := Took(op, NeedsInvestments(op), NeedsTenant(op), NOTHING_READ, None);
    var locked := entered + [(i, LockTenant)];
    NothingFresh(s.db);
    var view := ReadThem(s, i, c, ALL_TABLES);
    ExecuteAppend(s, locked, Reads(i, ALL_TABLES));
    OwnRights(op, NOTHING_READ);
    forall t | Needs(op, t) ensures HasRead(view, t) { EveryTable(t); }
    SeenDecides(s.db, c.(view := view));
    Finishes(s, locked + Reads(i, ALL_TABLES), i, c.(view := view), op);
    OwnSteps(i, ALL_TABLES);
    schedule := locked + Reads(i, ALL_TABLES) + [(i, Check)] + [(i, Commit)];
  }

  lemma OwnSteps(i: nat, tables: seq<Table>)
    ensures forall step <- Reads(i, tables) :: step.0 == i
  {
  }

  lemma PlanRights(op: Op, tenant: bool, view: View, saved: Option<Plan>)
    requires op.UpsertPlan?
    ensures NeedsInvestments(op) && NeedsTenant(op)
    ensures var c := Took(op, true, tenant, view, saved);
            MayRead(c, PlansT) && MayRead(c, OpeningT) && MayRead(c, SalesT) && (tenant ==> MayRead(c, FdT))
  {
  }

  lemma SaveStep(s: System, i: nat, op: Op, view: View)
    requires i < |s.clients| && op.UpsertPlan? && Decide(s.db, op).Success? && Fresh(s.db, view)
    requires HasRead(view, PlansT) && HasRead(view, OpeningT) && HasRead(view, SalesT)
    ensures RequestedPacket(op.dto).Success?
    ensures var saved := Merged(Current(s.db.plans, op.period), op.dto, RequestedPacket(op.dto).value);
            Act(Put(s, i, Took(op, true, false, view, None)), i, SavePlan) == Put(s, i, Took(op, true, false, view, Some(saved)))
  {
    hide Merged, ValidatePlanWrite, Sync, RequestedPacket;
    assert Same(Seen(view), s.db, PlansT) && Same(Seen(view), s.db, OpeningT) && Same(Seen(view), s.db, SalesT);
    var c := Took(op, true, false, view, None);
    var saved := Merged(Current(s.db.plans, op.period), op.dto, RequestedPacket(op.dto).value);
    assert PlanPasses(c);
    var t := Put(s, i, c);
    assert t.clients[i := c.(saved := Some(saved))] == s.clients[i := c.(saved := Some(saved))];
  }

  lemma PlanDecides(db: Tables, c: Client)
    requires c.Running? && c.op.UpsertPlan? && Fresh(db, c.view) && HasRead(c.view, FdT) && Decide(db, c.op).Success?
    requires c.saved == Some(Merged(Current(db.plans, c.op.period), c.op.dto, RequestedPacket(c.op.dto).value))
    ensures Checked(c) == Some(Decide(db, c.op).value)
  {
    hide Merged, ValidatePlanWrite, Sync;
    assert Same(Seen(c.view), db, FdT);
  }

  /** The plan write: the second lock comes after the plan row is written. */
  lemma PlanCommits(s: System, i: nat, op: Op) returns (schedule: seq<(nat, Action)>)
    requires i < |s.clients| && s.clients[i].Idle? && Alone(s, i) && op.UpsertPlan? && Decide(s.db, op).Success?
    ensures forall step <- schedule :: step.0 == i
    ensures Execute(s, schedule) == System(Apply(s.db, op), s.clients) && Committed(s, schedule) == [op]
  {
    hide Act, Enabled, Execute, Committed, Checked, Decide, Put, Apply, MayRead, HasRead, Needs, Fresh, Alone;
    hide Merged, RequestedPacket, Current, NeedsInvestments, NeedsTenant, NOTHING_READ;
    var entered := [(i, Begin(op))] + [(i, LockInvestments)];
    OpenSteps(s, i, op);
    PlanRights(op, false, NOTHING_READ, None);
    NothingFresh(s.db);
    var tables := [PlansT, OpeningT, SalesT];
    assert tables[0] == PlansT && tables[1] == OpeningT && tables[2] == SalesT;
    var view := ReadThem(s, i, Took(op, true, false, NOTHING_READ, None), tables);
    ExecuteAppend(s, entered, Reads(i, tables));
    var read := entered + Reads(i, tables);
    SaveStep(s, i, op, view);
    Extend(s, read, i, SavePlan);
    var saved := Merged(Current(s.db.plans, op.period), op.dto, RequestedPacket(op.dto).value);
    TenantStep(s, i, op, true, view, Some(saved));
    Extend(s, read + [(i, SavePlan)], i, LockTenant);
    var locked := read + [(i, SavePlan)] + [(i, LockTenant)];
    var c := Took(op, true, true, view, Some(saved));
    PlanRights(op, true, view, Some(saved));
    assert [FdT][0] == FdT;
    var last := ReadThem(s, i, c, [FdT]);
    ExecuteAppend(s, locked, Reads(i, [FdT]));
    PlanDecides(s.db, c.(view := last));
    Finishes(s, locked + Reads(i, [FdT]), i, c.(view := last), op);
    OwnSteps(i, tables);
    OwnSteps(i, [FdT]);
    schedule := locked + Reads(i, [FdT]) + [(i, Check)] + [(i, Commit)];
  }

  /** Every transaction the service accepts commits: when no other client holds a lock, an idle client can
      be stepped, alone, through the whole transaction, and the tables are then those after the atomic one;
      every client is as it was. */
  lemma AcceptedCommits(s: System, i: nat, op: Op) returns (schedule: seq<(nat, Action)>)
    requires i < |s.clients| && s.clients[i].Idle? && Decide(s.db, op).Success?
    requires forall k :: 0 <= k < |s.clients| && k != i && s.clients[k].Running? ==>
               !s.clients[k].holdsInvestments && !s.clients[k].holdsTenant
    ensures forall step <- schedule :: step.0 == i
    ensures Execute(s, schedule) == System(Apply(s.db, op), s.clients) && Committed(s, schedule) == [op]
  {
    hide Decide, Execute, Committed, Apply;
    if op.UpsertPlan? { schedule := PlanCommits(s, i, op); } else { schedule := OtherCommits(s, i, op); }
  }

  // ---------------------------------------------------------------------------------------------
  // A rejected transaction does not
  // ---------------------------------------------------------------------------------------------

  /** Each transaction is accepted on the tables that those before it left. */
  ghost predicate AllAccepted(db: Tables, ops: seq<Op>)
    decreases |ops|
  {
    ops != [] ==> Decide(db, ops[0]).Success? && AllAccepted(Apply(db, ops[0]), ops[1..])
  }

  lemma CommitAccepted(s: System, i: nat)
    requires Consistent(s) && i < |s.clients| && Enabled(s, i, Commit)
    ensures s.clients[i].Running? && Decide(s.db, s.clients[i].op).Success?
  {
    hide Decide;
    assert s.clients[i] in s.clients;
  }

  /** The transactions that any schedule commits were all accepted, each in its turn. */
  lemma {:induction false} CommittedAccepted(s: System, schedule: seq<(nat, Action)>)
    requires Consistent(s)
    ensures AllAccepted(s.db, Committed(s, schedule))
    decreases |schedule|
  {
    hide Act, Apply, Consistent, Decide, Enabled;
    if schedule != [] {
      var (i, a) := schedule[0];
      var next := Act(s, i, a);
      StepRefines(s, i, a);
      CommittedAccepted(next, schedule[1..]);
      var rest := Committed(next, schedule[1..]);
      if i < |s.clients| && Enabled(s, i, a) && a.Commit? {
        CommitAccepted(s, i);
        assert ([s.clients[i].op] + rest)[1..] == rest;
      } else {
        assert [] + rest == rest;
      }
    }
  }

  /** What one client commits without beginning anew is what it is running. */
  lemma {:induction false} OnlyOwn(s: System, i: nat, op: Op, schedule: seq<(nat, Action)>)
    requires i < |s.clients| && (s.clients[i].Running? ==> s.clients[i].op == op)
    requires forall step <- schedule :: step.0 == i && !step.1.Begin?
    ensures forall o <- Committed(s, schedule) :: o == op
    decreases |schedule|
  {
    hide ApplyAll, PlanPasses, Checked, MayRead, Look, Merged;
    if schedule != [] {
      assert schedule[0] in schedule;
      OnlyOwn(Act(s, i, schedule[0].1), i, op, schedule[1..]);
    }
  }

  /** A transaction that the service rejects is never committed by the client that runs it: whatever it
      tries, the tables stay, and its only way out is to abort. */
  lemma RejectedNeverCommits(s: System, i: nat, op: Op, schedule: seq<(nat, Action)>)
    requires Consistent(s) && i < |s.clients| && s.clients[i].Idle? && Decide(s.db, op).Failure?
    requires forall step <- schedule :: step.0 == i && !step.1.Begin?
    ensures var all := [(i, Begin(op))] + schedule;
            Committed(s, all) == [] && Execute(s, all).db == s.db
  {
    hide Decide, Apply, Consistent, Enabled, Execute, Committed;
    var all, begun := [(i, Begin(op))] + schedule, Act(s, i, Begin(op));
    ExecuteAppend(s, [(i, Begin(op))], schedule);
    ExecuteOne(s, i, Begin(op));
    BegunIs(s, i, op);
    OnlyOwn(begun, i, op, schedule);
    CommittedAccepted(s, all);
    assert Committed(s, all) == [] + Committed(begun, schedule) == Committed(begun, schedule);
    if Committed(s, all) != [] { NoneAccepted(s.db, Committed(s, all), op); }
    Serializable(s, all);
  }

  lemma NoneAccepted(db: Tables, ops: seq<Op>, op: Op)
    requires ops != [] && Decide(db, op).Failure? && forall o <- ops :: o == op
    ensures !AllAccepted(db, ops)
  {
    hide Decide;
    assert ops[0] in ops;
  }

  lemma BegunIs(s: System, i: nat, op: Op)
    requires i < |s.clients| && s.clients[i].Idle?
    ensures var t := Act(s, i, Begin(op)); |t.clients| == |s.clients| && t.clients[i].Running? && t.clients[i].op == op
  {
  }
}
