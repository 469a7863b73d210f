/**
 The lease that keeps import runs apart: one lock row per job, with an expiry. Acquiring is two
 statements, deleting an expired row and creating a row, with anything in between.
 */
module ImportLock {
  import opened Wrappers

  datatype LockRow = LockRow(owner: string, expiresAt: int)
  type Locks = map<string, LockRow>

  function DeleteExpired(locks: Locks, job: string, now: int): Locks {
    if job in locks && locks[job].expiresAt < now then locks - {job} else locks
  }

  /** deleteMany for a job, restricted to one owner when a scope is given. */
  function DeleteOwned(locks: Locks, job: string, owner: Option<string>): Locks {
    if job in locks && (owner.Some? ==> locks[job].owner == owner.value) then locks - {job} else locks
  }

  class ImportLockService {
    var locks: Locks

    constructor ()
      ensures locks == map[]
    {
      locks := map[];
    }

    /** Alone on the table: it succeeds exactly when no unexpired row is there, and then holds the row. */
    method Acquire(job: string, owner: string, now: int, ttlMs: int) returns (acquired: bool)
      modifies this
      ensures acquired <==> !(job in old(locks) && now <= old(locks)[job].expiresAt)
      ensures locks == if acquired then old(locks)[job := LockRow(owner, now + ttlMs)] else old(locks)
    {
      locks := DeleteExpired(locks, job, now);
      if job in locks {
        return false;
      }
      locks := locks[job := LockRow(owner, now + ttlMs)];
      return true;
    }

    method Release(job: string, owner: Option<string>)
      modifies this
      ensures job in locks ==> owner.Some? && old(job in locks && locks[job].owner != owner.value)
      ensures locks - {job} == old(locks) - {job}
      ensures job in locks ==> locks == old(locks)
    {
      locks := DeleteOwned(locks, job, owner);
    }
  }

  // ---------------------------------------------------------------------------------------------
  // Runs as a state machine
  // ---------------------------------------------------------------------------------------------

  /** A run of a job; `scoped` says whether its release names its owner. */
  datatype Run = Run(job: string, owner: string, ttl: int, scoped: bool)

  datatype Phase =
    | Idle
    | Starting(run: Run, captured: int)
    | Swept(run: Run, captured: int)
    | Holding(run: Run, expiresAt: int)

  datatype System = System(locks: Locks, phases: seq<Phase>, now: int)

  /** Begin reads the clock; Sweep and Create are the two statements of acquire; Release ends a run
      that holds the lease; Crash ends a run anywhere without touching the table; Tick lets time pass. */
  datatype Action = Begin(run: Run) | Sweep | Create | Release | Crash | Tick(ms: nat)

  function Act(s: System, i: nat, a: Action): System {
    if a.Tick? then s.(now := s.now + a.ms)
    else if i >= |s.phases| then s
    else
      match (a, s.phases[i])
      case (Begin(run), Idle) => s.(phases := s.phases[i := Starting(run, s.now)])
      case (Sweep, Starting(run, captured)) =>
        s.(locks := DeleteExpired(s.locks, run.job, captured), phases := s.phases[i := Swept(run, captured)])
      case (Create, Swept(run, captured)) =>
        if run.job in s.locks then s.(phases := s.phases[i := Idle])
        else s.(locks := s.locks[run.job := LockRow(run.owner, captured + run.ttl)],
                phases := s.phases[i := Holding(run, captured + run.ttl)])
      case (Release, Holding(run, _)) =>
        s.(locks := DeleteOwned(s.locks, run.job, if run.scoped then Some(run.owner) else None),
           phases := s.phases[i := Idle])
      case (Crash, _) => s.(phases := s.phases[i := Idle])
      case _ => s
  }

  function Execute(s: System, schedule: seq<(nat, Action)>): System
    decreases |schedule|
  {
    if schedule == [] then s else Execute(Act(s, schedule[0].0, schedule[0].1), schedule[1..])
  }

  function Start(runs: nat, now: int): System {
    System(map[], seq(runs, _ => Idle), now)
  }

  /** Every holder is still within its lease. */
  ghost predicate Punctual(s: System) {
    forall p <- s.phases :: p.Holding? ==> s.now <= p.expiresAt
  }

  ghost predicate AlwaysPunctual(s: System, schedule: seq<(nat, Action)>)
    decreases |schedule|
  {
    Punctual(s) && (schedule != [] ==> AlwaysPunctual(Act(s, schedule[0].0, schedule[0].1), schedule[1..]))
  }

  /** No two runs of one job hold the lease. */
  ghost predicate Exclusive(s: System) {
    forall i, j :: 0 <= i < j < |s.phases| && s.phases[i].Holding? && s.phases[j].Holding? ==>
                     s.phases[i].run.job != s.phases[j].run.job
  }

  ghost predicate ClocksRead(s: System) {
    forall p <- s.phases :: (p.Starting? || p.Swept?) ==> p.captured <= s.now
  }

  /** The row of a holder is in the table. */
  ghost predicate HoldersStored(s: System) {
    forall p <- s.phases :: p.Holding? ==> p.run.job in s.locks && s.locks[p.run.job] == LockRow(p.run.owner, p.expiresAt)
  }

  lemma ClocksKept(s: System, i: nat, a: Action)
    requires ClocksRead(s)
    ensures ClocksRead(Act(s, i, a))
  {
    var t := Act(s, i, a);
    forall p <- t.phases | p.Starting? || p.Swept? ensures p.captured <= t.now {
      var k :| 0 <= k < |t.phases| && t.phases[k] == p;
      assert s.phases[k] in s.phases;
    }
  }

  lemma StepExclusive(s: System, i: nat, a: Action)
    requires Punctual(s) && Exclusive(s) && ClocksRead(s) && HoldersStored(s)
    ensures Exclusive(Act(s, i, a)) && ClocksRead(Act(s, i, a)) && HoldersStored(Act(s, i, a))
  {
    ClocksKept(s, i, a);
    var t := Act(s, i, a);
    assert forall k :: 0 <= k < |s.phases| ==> s.phases[k] in s.phases;
    forall p <- t.phases | p.Holding?
      ensures p.run.job in t.locks && t.locks[p.run.job] == LockRow(p.run.owner, p.expiresAt)
    {
      var k :| 0 <= k < |t.phases| && t.phases[k] == p;
      assert |t.phases| == |s.phases|;
      if k != i || a.Tick? {
        assert s.phases[k] == p;
      }
    }
  }

  /** Lease safety: in every interleaving of any number of runs, if no holder outlives its lease, at
      most one run per job is between its acquire and its release, whichever way runs release. */
  lemma {:induction false} LeaseSafety(s: System, schedule: seq<(nat, Action)>)
    requires Exclusive(s) && ClocksRead(s) && HoldersStored(s)
    requires AlwaysPunctual(s, schedule)
    ensures Exclusive(Execute(s, schedule))
    decreases |schedule|
  {
    hide Act, Exclusive, ClocksRead, HoldersStored, Punctual;
    if schedule != [] {
      StepExclusive(s, schedule[0].0, schedule[0].1);
      LeaseSafety(Act(s, schedule[0].0, schedule[0].1), schedule[1..]);
    }
  }

  lemma LeaseSafetyFromStart(runs: nat, now: int, schedule: seq<(nat, Action)>)
    requires AlwaysPunctual(Start(runs, now), schedule)
    ensures Exclusive(Execute(Start(runs, now), schedule))
  {
    LeaseSafety(Start(runs, now), schedule);
  }

  // ---------------------------------------------------------------------------------------------
  // Runs that outlive their lease
  // ---------------------------------------------------------------------------------------------

  /** A holder whose lease has not run out. */
  ghost predicate Live(s: System, p: Phase) {
    p.Holding? && s.now <= p.expiresAt
  }

  ghost predicate LiveExclusive(s: System) {
    forall i, j :: 0 <= i < j < |s.phases| && Live(s, s.phases[i]) && Live(s, s.phases[j]) ==>
                     s.phases[i].run.job != s.phases[j].run.job
  }

  ghost predicate LiveStored(s: System) {
    forall p <- s.phases :: Live(s, p) ==> p.run.job in s.locks && s.locks[p.run.job] == LockRow(p.run.owner, p.expiresAt)
  }

  /** Releases name their owner, and no two current runs share one. */
  ghost predicate Scoped(s: System) {
    && (forall p <- s.phases :: p.Holding? || p.Starting? || p.Swept? ==> p.run.scoped)
    && (forall i, j :: 0 <= i < j < |s.phases| && !s.phases[i].Idle? && !s.phases[j].Idle? ==>
                         s.phases[i].run.owner != s.phases[j].run.owner)
  }

  ghost predicate AlwaysScoped(s: System, schedule: seq<(nat, Action)>)
    decreases |schedule|
  {
    Scoped(s) && (schedule != [] ==> AlwaysScoped(Act(s, schedule[0].0, schedule[0].1), schedule[1..]))
  }

  lemma StepLive(s: System, i: nat, a: Action)
    requires Scoped(s) && ClocksRead(s) && LiveStored(s)
    ensures ClocksRead(Act(s, i, a)) && LiveStored(Act(s, i, a))
  {
    ClocksKept(s, i, a);
    var t := Act(s, i, a);
    assert forall k :: 0 <= k < |s.phases| ==> s.phases[k] in s.phases;
    forall p <- t.phases | Live(t, p)
      ensures p.run.job in t.locks && t.locks[p.run.job] == LockRow(p.run.owner, p.expiresAt)
    {
      var k :| 0 <= k < |t.phases| && t.phases[k] == p;
      assert |t.phases| == |s.phases|;
      if k != i || a.Tick? {
        assert s.phases[k] == p && Live(s, p);
      }
    }
  }

  /** A release takes away a live holder's row exactly when such a holder of the same job exists that the
      release does not tell apart: any one for an unscoped release, one of the same owner otherwise. */
  lemma ReleaseSafeIff(s: System, i: nat)
    requires LiveStored(s) && i < |s.phases| && s.phases[i].Holding?
    ensures LiveStored(Act(s, i, Release)) <==>
            forall k :: 0 <= k < |s.phases| && k != i && Live(s, s.phases[k]) && s.phases[k].run.job == s.phases[i].run.job ==>
                          s.phases[i].run.scoped && s.phases[k].run.owner != s.phases[i].run.owner
  {
    var t, run := Act(s, i, Release), s.phases[i].run;
    assert forall k :: 0 <= k < |s.phases| ==> s.phases[k] in s.phases;
    assert forall k :: 0 <= k < |t.phases| ==> t.phases[k] in t.phases;
    assert forall k :: 0 <= k < |s.phases| && k != i ==> t.phases[k] == s.phases[k];
    if k :| 0 <= k < |s.phases| && k != i && Live(s, s.phases[k]) && s.phases[k].run.job == run.job
            && !(run.scoped && s.phases[k].run.owner != run.owner) {
      assert Live(t, t.phases[k]) && run.job !in t.locks;
    } else {
      forall p <- t.phases | Live(t, p)
        ensures p.run.job in t.locks && t.locks[p.run.job] == LockRow(p.run.owner, p.expiresAt)
      {
        var k :| 0 <= k < |t.phases| && t.phases[k] == p;
        assert k != i && Live(s, s.phases[k]);
      }
    }
  }

  lemma StoredIsExclusive(s: System)
    requires Scoped(s) && LiveStored(s)
    ensures LiveExclusive(s)
  {
    assert forall k :: 0 <= k < |s.phases| ==> s.phases[k] in s.phases;
  }

  /** With owner-scoped releases the lease tolerates overruns: however late holders are, two runs of
      one job never both hold an unexpired lease. */
  lemma {:induction false} ScopedSafety(s: System, schedule: seq<(nat, Action)>)
    requires ClocksRead(s) && LiveStored(s) && AlwaysScoped(s, schedule)
    ensures LiveExclusive(Execute(s, schedule))
    decreases |schedule|
  {
    hide Act, Scoped, ClocksRead, LiveStored, LiveExclusive;
    if schedule == [] {
      StoredIsExclusive(s);
    } else {
      StepLive(s, schedule[0].0, schedule[0].1);
      ScopedSafety(Act(s, schedule[0].0, schedule[0].1), schedule[1..]);
    }
  }

  // ---------------------------------------------------------------------------------------------
  // Which kinds of runs tolerate lateness
  // ---------------------------------------------------------------------------------------------

  /** Every run of the schedule is of one job, with one length of lease, and releases scoped or not, as said. */
  ghost predicate Begins(schedule: seq<(nat, Action)>, job: string, ttl: nat, scoped: bool) {
    forall step <- schedule :: step.1.Begin? ==> step.1.run.job == job && step.1.run.ttl == ttl && step.1.run.scoped == scoped
  }

  /** No two runs of the schedule share an owner. */
  ghost predicate OwnersApart(schedule: seq<(nat, Action)>) {
    forall i, j :: 0 <= i < j < |schedule| && schedule[i].1.Begin? && schedule[j].1.Begin? ==>
                     schedule[i].1.run.owner != schedule[j].1.run.owner
  }

  /** Whatever the schedule, and however late its runs release: no two of them hold an unexpired lease. */
  ghost predicate ToleratesLateness(job: string, ttl: nat, scoped: bool, ownersApart: bool) {
    forall runs: nat, now: int, schedule: seq<(nat, Action)> ::
      Begins(schedule, job, ttl, scoped) && (ownersApart ==> OwnersApart(schedule)) ==>
        LiveExclusive(Execute(Start(runs, now), schedule))
  }

  ghost predicate OwnersFresh(s: System, schedule: seq<(nat, Action)>) {
    forall p <- s.phases, step <- schedule :: !p.Idle? && step.1.Begin? ==> p.run.owner != step.1.run.owner
  }

  lemma StepScoped(s: System, i: nat, a: Action)
    requires Scoped(s)
    requires a.Begin? ==> a.run.scoped && forall p <- s.phases :: !p.Idle? ==> p.run.owner != a.run.owner
    ensures Scoped(Act(s, i, a))
    ensures forall p <- Act(s, i, a).phases ::
              !p.Idle? ==> (a.Begin? && p.run == a.run) || (exists q <- s.phases :: !q.Idle? && q.run == p.run)
  {
    var t := Act(s, i, a);
    assert forall k :: 0 <= k < |s.phases| ==> s.phases[k] in s.phases;
    assert |t.phases| == |s.phases| && forall k :: 0 <= k < |s.phases| && k != i ==> t.phases[k] == s.phases[k];
    assert i < |s.phases| && !t.phases[i].Idle? ==>
      (a.Begin? && s.phases[i].Idle? && t.phases[i].run == a.run) || (!s.phases[i].Idle? && t.phases[i].run == s.phases[i].run);
    forall p <- t.phases | !p.Idle?
      ensures (a.Begin? && p.run == a.run) || (exists q <- s.phases :: !q.Idle? && q.run == p.run)
    {
      var k :| 0 <= k < |t.phases| && t.phases[k] == p;
      assert s.phases[k] in s.phases;
    }
  }

  lemma {:induction false} KindAlwaysScoped(s: System, schedule: seq<(nat, Action)>, job: string, ttl: nat)
    requires Scoped(s) && Begins(schedule, job, ttl, true) && OwnersApart(schedule) && OwnersFresh(s, schedule)
    ensures AlwaysScoped(s, schedule)
    decreases |schedule|
  {
    hide Act, Scoped;
    if schedule != [] {
      var (i, a) := schedule[0];
      var t, rest := Act(s, i, a), schedule[1..];
      assert schedule[0] in schedule;
      StepScoped(s, i, a);
      forall p <- t.phases, step <- rest | !p.Idle? && step.1.Begin? ensures p.run.owner != step.1.run.owner {
        var k :| 0 <= k < |rest| && rest[k] == step;
        assert schedule[k + 1] == step && step in schedule;
      }
      assert forall k :: 0 <= k < |rest| ==> rest[k] == schedule[k + 1];
      KindAlwaysScoped(t, rest, job, ttl);
    }
  }

  lemma StartScoped(runs: nat, now: int)
    ensures Scoped(Start(runs, now)) && ClocksRead(Start(runs, now)) && LiveStored(Start(runs, now))
    ensures forall schedule :: OwnersFresh(Start(runs, now), schedule)
  {
  }

  function AcquireSteps(i: nat, run: Run): seq<(nat, Action)> {
    [(i, Begin(run)), (i, Sweep), (i, Create)]
  }

  lemma {:induction false} ExecuteAppend(s: System, first: seq<(nat, Action)>, second: seq<(nat, Action)>)
    ensures Execute(s, first + second) == Execute(Execute(s, first), second)
    decreases |first|
  {
    if first == [] {
      assert first + second == second;
    } else {
      assert (first + second)[1..] == first[1..] + second;
      ExecuteAppend(Act(s, first[0].0, first[0].1), first[1..], second);
    }
  }

  lemma Single(s: System, i: nat, a: Action)
    ensures Execute(s, [(i, a)]) == Act(s, i, a)
  {
    assert [(i, a)][1..] == [];
  }

  lemma Acquires(s: System, i: nat, run: Run)
    requires i < |s.phases| && s.phases[i].Idle?
    requires run.job in s.locks ==> s.locks[run.job].expiresAt < s.now
    ensures Execute(s, AcquireSteps(i, run)) ==
            System(s.locks[run.job := LockRow(run.owner, s.now + run.ttl)],
                   s.phases[i := Holding(run, s.now + run.ttl)], s.now)
  {
    var a := Act(s, i, Begin(run));
    var b := Act(a, i, Sweep);
    var c := Act(b, i, Create);
    assert AcquireSteps(i, run)[1..] == [(i, Sweep), (i, Create)];
    assert [(i, Sweep), (i, Create)][1..] == [(i, Create)];
    Single(b, i, Create);
    assert c.locks == s.locks[run.job := LockRow(run.owner, s.now + run.ttl)];
    assert c.phases == s.phases[i := Holding(run, s.now + run.ttl)];
  }

  /** Run a acquires and overruns its lease, run b takes over, and a's late release removes b's row. */
  lemma LateRelease(a: Run, b: Run, ttl: nat)
    requires a.job == b.job && a.ttl == b.ttl == ttl && (a.scoped ==> a.owner == b.owner)
    ensures var steps := AcquireSteps(0, a) + [(0, Tick(ttl + 1))] + AcquireSteps(1, b) + [(0, Release)];
            Execute(Start(3, 0), steps) == System(map[], [Idle, Holding(b, 2 * ttl + 1), Idle], ttl + 1)
  {
    hide Act;
    var s0 := Start(3, 0);
    var steps1 := AcquireSteps(0, a) + [(0, Tick(ttl + 1))];
    var steps2 := steps1 + AcquireSteps(1, b);
    var s1 := System(map[a.job := LockRow(a.owner, ttl)], [Holding(a, ttl), Idle, Idle], 0);
    Acquires(s0, 0, a);
    assert s0.phases[0 := Holding(a, ttl)] == s1.phases;
    ExecuteAppend(s0, AcquireSteps(0, a), [(0, Tick(ttl + 1))]);
    Single(s1, 0, Tick(ttl + 1));
    TickPasses(s1, 0, ttl + 1);
    var s2 := s1.(now := ttl + 1);
    Acquires(s2, 1, b);
    ExecuteAppend(s0, steps1, AcquireSteps(1, b));
    var s3 := System(map[b.job := LockRow(b.owner, 2 * ttl + 1)], [Holding(a, ttl), Holding(b, 2 * ttl + 1), Idle], ttl + 1);
    assert s2.locks[b.job := LockRow(b.owner, 2 * ttl + 1)] == s3.locks;
    assert s2.phases[1 := Holding(b, 2 * ttl + 1)] == s3.phases;
    ExecuteAppend(s0, steps2, [(0, Release)]);
    Single(s3, 0, Release);
    ReleasesAny(s3, 0);
    assert s3.locks - {a.job} == map[];
    assert s3.phases[0 := Idle] == [Idle, Holding(b, 2 * ttl + 1), Idle];
  }

  lemma TickPasses(s: System, i: nat, ms: nat)
    ensures Act(s, i, Tick(ms)) == s.(now := s.now + ms)
  {
  }

  lemma ReleasesAny(s: System, i: nat)
    requires i < |s.phases| && s.phases[i].Holding? && s.phases[i].run.job in s.locks
    requires s.phases[i].run.scoped ==> s.locks[s.phases[i].run.job].owner == s.phases[i].run.owner
    ensures Act(s, i, Release) == System(s.locks - {s.phases[i].run.job}, s.phases[i := Idle], s.now)
  {
  }

  function LateSchedule(a: Run, b: Run, c: Run, ttl: nat): seq<(nat, Action)> {
    AcquireSteps(0, a) + [(0, Tick(ttl + 1))] + AcquireSteps(1, b) + [(0, Release)] + AcquireSteps(2, c)
  }

  /** After one overrun whose release takes over b's row, runs b and c both hold an unexpired lease,
      though neither was late. */
  lemma LateScheduleUnsafe(a: Run, b: Run, c: Run, ttl: nat)
    requires a.job == b.job == c.job && a.ttl == b.ttl == c.ttl == ttl && (a.scoped ==> a.owner == b.owner)
    ensures !LiveExclusive(Execute(Start(3, 0), LateSchedule(a, b, c, ttl)))
  {
    var steps := AcquireSteps(0, a) + [(0, Tick(ttl + 1))] + AcquireSteps(1, b) + [(0, Release)];
    var mid := System(map[], [Idle, Holding(b, 2 * ttl + 1), Idle], ttl + 1);
    LateRelease(a, b, ttl);
    ExecuteAppend(Start(3, 0), steps, AcquireSteps(2, c));
    Acquires(mid, 2, c);
    var last := Execute(mid, AcquireSteps(2, c));
    assert Live(last, last.phases[1]) && Live(last, last.phases[2]);
  }

  lemma LateScheduleIs(a: Run, b: Run, c: Run, ttl: nat)
    ensures LateSchedule(a, b, c, ttl) ==
      [(0, Begin(a)), (0, Sweep), (0, Create), (0, Tick(ttl + 1)), (1, Begin(b)), (1, Sweep), (1, Create), (0, Release),
       (2, Begin(c)), (2, Sweep), (2, Create)]
  {
  }

  lemma LateBegins(a: Run, b: Run, c: Run, ttl: nat)
    ensures var steps := LateSchedule(a, b, c, ttl);
            forall k :: 0 <= k < |steps| && steps[k].1.Begin? ==>
                          (k == 0 && steps[k].1.run == a) || (k == 4 && steps[k].1.run == b) || (k == 8 && steps[k].1.run == c)
  {
    hide LateSchedule;
    LateScheduleIs(a, b, c, ttl);
  }

  lemma LateScheduleKind(a: Run, b: Run, c: Run, ttl: nat)
    requires a.job == b.job == c.job && a.scoped == b.scoped == c.scoped && a.ttl == b.ttl == c.ttl == ttl
    ensures Begins(LateSchedule(a, b, c, ttl), a.job, ttl, a.scoped)
    ensures a.owner != b.owner && b.owner != c.owner && a.owner != c.owner ==> OwnersApart(LateSchedule(a, b, c, ttl))
  {
    hide LateSchedule;
    LateBegins(a, b, c, ttl);
    var steps := LateSchedule(a, b, c, ttl);
    forall step <- steps | step.1.Begin? ensures step.1.run in [a, b, c] {
      var k :| 0 <= k < |steps| && steps[k] == step;
    }
  }

  /** The unscoped release of the transaction import does not tolerate one late run, whatever the length
      of its lease. */
  lemma UnscopedUnsafe(ttl: nat)
    ensures var run := (owner: string) => Run("cc_txn_import", owner, ttl, false);
            !LiveExclusive(Execute(Start(3, 0), LateSchedule(run("api:1"), run("api:2"), run("api:3"), ttl)))
  {
    hide LiveExclusive, LateSchedule, Execute;
    var a, b := Run("cc_txn_import", "api:1", ttl, false), Run("cc_txn_import", "api:2", ttl, false);
    var c := Run("cc_txn_import", "api:3", ttl, false);
    LateScheduleUnsafe(a, b, c, ttl);
  }

  /** Exactly which kinds of runs exclude each other however late they are, for every length of lease:
      those that name their owner in the release and do not share it with another run. */
  lemma ToleratesLatenessIff(job: string, ttl: nat, scoped: bool, ownersApart: bool)
    ensures ToleratesLateness(job, ttl, scoped, ownersApart) <==> scoped && ownersApart
  {
    hide LiveExclusive, LateSchedule, Execute, Begins, OwnersApart;
    if scoped && ownersApart {
      forall runs: nat, now: int, schedule: seq<(nat, Action)> | Begins(schedule, job, ttl, scoped) && OwnersApart(schedule)
        ensures LiveExclusive(Execute(Start(runs, now), schedule))
      {
        StartScoped(runs, now);
        KindAlwaysScoped(Start(runs, now), schedule, job, ttl);
        ScopedSafety(Start(runs, now), schedule);
      }
    } else {
      var a, b := Run(job, "1", ttl, scoped), Run(job, if scoped then "1" else "2", ttl, scoped);
      var c := Run(job, "3", ttl, scoped);
      LateScheduleUnsafe(a, b, c, ttl);
      LateScheduleKind(a, b, c, ttl);
    }
  }

  // ---------------------------------------------------------------------------------------------
  // A run on its own
  // ---------------------------------------------------------------------------------------------

  function Acquiring(i: nat, run: Run): seq<(nat, Action)> {
    [(i, Begin(run)), (i, Sweep), (i, Create)]
  }

  lemma ThreeSteps(s: System, i: nat, a: Action, b: Action, c: Action)
    ensures Execute(s, [(i, a), (i, b), (i, c)]) == Act(Act(Act(s, i, a), i, b), i, c)
  {
    hide Act;
    var steps := [(i, a), (i, b), (i, c)];
    assert [(i, c)][1..] == [];
    assert steps[1..] == [(i, b), (i, c)] && steps[1..][1..] == [(i, c)];
    assert Execute(s, steps) == Execute(Act(s, i, a), steps[1..]);
    assert Execute(Act(s, i, a), steps[1..]) == Execute(Act(Act(s, i, a), i, b), steps[1..][1..]);
    assert Execute(Act(Act(s, i, a), i, b), steps[1..][1..]) == Execute(Act(Act(Act(s, i, a), i, b), i, c), []);
  }

  /** An idle run that acquires with no other step in between holds the lease exactly when the table has no
      row of its job, or an expired one: then its own row is there until its expiry. Otherwise nothing
      changed. No other run and no row of another job is touched. */
  lemma AcquiresAlone(s: System, i: nat, run: Run)
    requires i < |s.phases| && s.phases[i].Idle?
    ensures var t := Execute(s, Acquiring(i, run));
            if run.job in s.locks && s.now <= s.locks[run.job].expiresAt then t == s
            else t == System(s.locks[run.job := LockRow(run.owner, s.now + run.ttl)],
                             s.phases[i := Holding(run, s.now + run.ttl)], s.now)
  {
    ThreeSteps(s, i, Begin(run), Sweep, Create);
    var begun := Act(s, i, Begin(run));
    var swept := Act(begun, i, Sweep);
    assert swept.phases == s.phases[i := Swept(run, s.now)];
    assert s.phases[i := Idle] == s.phases;
    if run.job in s.locks && s.locks[run.job].expiresAt < s.now {
      assert (s.locks - {run.job})[run.job := LockRow(run.owner, s.now + run.ttl)] ==
             s.locks[run.job := LockRow(run.owner, s.now + run.ttl)];
    }
  }
}
