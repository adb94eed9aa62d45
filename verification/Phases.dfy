/** One parallel launch: microthreads that take their steps in any order, each first reading
    its own counters to learn what to do, then loading and storing piece by piece. */
module Phases {
  import opened Complexes
  import opened Memories
  import opened Batches

  /** A copy of one cell, a SIMD piece of a stage, or the update of a counter. */
  datatype Job = CopyCell(from: Cell, to: Cell) | RunChunk(stage: Stage, piece: Piece) | SetCell(cell: Cell, value: Complex)

  function JobWrites(m: Memory, job: Job): seq<Write> {
    match job
    case CopyCell(from, to) => [Write(to, Read(m, from))]
    case RunChunk(stage, piece) => BatchWrites(stage, m, piece.batch, piece.width, |stage.order|)
    case SetCell(cell, value) => [Write(cell, value)]
  }

  /** A microthread that has not started, or what it has still to do and to store. */
  datatype Thread = Ready | Busy(todo: seq<Job>, pending: seq<Write>)

  predicate Finished(t: Thread) {
    t.Busy? && t.todo == [] && t.pending == []
  }

  /** What microthread i does, decided by what it finds in memory when it starts. */
  type Work = (nat, Memory) -> seq<Job>

  datatype System = System(memory: Memory, threads: seq<Thread>)

  /** Microthread i takes one step: it starts, stores one cell, or loads for its next job. */
  function Step(work: Work, s: System, i: nat): System
    requires i < |s.threads|
  {
    match s.threads[i]
    case Ready => s.(threads := s.threads[i := Busy(work(i, s.memory), [])])
    case Busy(todo, pending) =>
      if pending != [] then
        System(s.memory[pending[0].cell := pending[0].value], s.threads[i := Busy(todo, pending[1..])])
      else if todo != [] then
        s.(threads := s.threads[i := Busy(todo[1..], JobWrites(s.memory, todo[0]))])
      else s
  }

  // -------- what a launch is meant to achieve

  /** The value each cell the launch may write is meant to get. */
  type Goal = Cell -> Option<Complex>

  /** The microthread that a counter belongs to. */
  type Owner = Cell -> Option<nat>

  /** Every cell that no one may write reads as before. */
  ghost predicate KeepsRest(goal: Goal, m0: Memory, m: Memory) {
    forall c: Cell :: goal(c).None? ==> Read(m, c) == Read(m0, c)
  }

  ghost predicate KeepsOwn(owner: Owner, i: nat, m0: Memory, m: Memory) {
    forall c: Cell :: owner(c) == Some(i) ==> Read(m, c) == Read(m0, c)
  }

  /** A write that brings a cell to its goal, and touches no one else's counter. */
  ghost predicate Rightful(goal: Goal, owner: Owner, i: nat, w: Write) {
    goal(w.cell) == Some(w.value) && (owner(w.cell).Some? ==> owner(w.cell) == Some(i))
  }

  ghost predicate JobIsRightful(goal: Goal, owner: Owner, i: nat, m0: Memory, job: Job) {
    forall w :: w in JobWrites(m0, job) ==> Rightful(goal, owner, i, w)
  }

  /** What a job loads is not written during the launch. */
  ghost predicate JobIsStable(goal: Goal, m0: Memory, job: Job) {
    forall m: Memory :: KeepsRest(goal, m0, m) ==> JobWrites(m, job) == JobWrites(m0, job)
  }

  ghost predicate StartIsStable(work: Work, goal: Goal, owner: Owner, i: nat, m0: Memory) {
    forall m: Memory :: KeepsRest(goal, m0, m) && KeepsOwn(owner, i, m0, m) ==> work(i, m) == work(i, m0)
  }

  ghost predicate ThreadIsDisciplined(work: Work, goal: Goal, owner: Owner, i: nat, m0: Memory) {
    && StartIsStable(work, goal, owner, i, m0)
    && forall job :: job in work(i, m0) ==> JobIsStable(goal, m0, job) && JobIsRightful(goal, owner, i, m0, job)
  }

  ghost predicate Disciplined(work: Work, goal: Goal, owner: Owner, count: nat, m0: Memory) {
    forall i: nat :: i < count ==> ThreadIsDisciplined(work, goal, owner, i, m0)
  }

  // -------- the invariant of a launch

  /** A cell reads as before or as it is meant to. */
  ghost predicate OldOrGoal(goal: Goal, m0: Memory, m: Memory) {
    forall c: Cell :: Read(m, c) == Read(m0, c) || goal(c) == Some(Read(m, c))
  }

  /** Every write of the job is still to come, or has been done. */
  ghost predicate Accounted(m0: Memory, m: Memory, todo: seq<Job>, pending: seq<Write>, job: Job) {
    job in todo || forall w :: w in JobWrites(m0, job) ==> w in pending || Read(m, w.cell) == w.value
  }

  ghost predicate ThreadOk(work: Work, goal: Goal, owner: Owner, m0: Memory, m: Memory, i: nat, t: Thread) {
    match t
    case Ready => KeepsOwn(owner, i, m0, m)
    case Busy(todo, pending) =>
      && (forall job :: job in todo ==> job in work(i, m0))
      && (forall w :: w in pending ==> Rightful(goal, owner, i, w))
      && (forall job :: job in work(i, m0) ==> Accounted(m0, m, todo, pending, job))
  }

  ghost predicate Invariant(work: Work, goal: Goal, owner: Owner, m0: Memory, s: System) {
    && OldOrGoal(goal, m0, s.memory)
    && forall i: nat :: i < |s.threads| ==> ThreadOk(work, goal, owner, m0, s.memory, i, s.threads[i])
  }

  lemma OldOrGoalKeepsRest(goal: Goal, m0: Memory, m: Memory)
    requires OldOrGoal(goal, m0, m)
    ensures KeepsRest(goal, m0, m)
  {
  }

  lemma InvariantStarts(work: Work, goal: Goal, owner: Owner, m0: Memory, count: nat)
    ensures Invariant(work, goal, owner, m0, System(m0, seq(count, _ => Ready)))
  {
  }

  // A store that brings a cell to its goal disturbs no thread but, perhaps, its own.
  lemma StoreKeepsThread(work: Work, goal: Goal, owner: Owner, m0: Memory, m: Memory, i: nat, w: Write, j: nat, t: Thread)
    requires Rightful(goal, owner, i, w) && j != i && ThreadOk(work, goal, owner, m0, m, j, t)
    requires ThreadIsDisciplined(work, goal, owner, j, m0)
    ensures ThreadOk(work, goal, owner, m0, m[w.cell := w.value], j, t)
  {
    hide StartIsStable, JobIsStable, JobWrites;
    var m' := m[w.cell := w.value];
    if t.Busy? {
      forall job | job in work(j, m0) ensures Accounted(m0, m', t.todo, t.pending, job) {
        StoreKeepsJob(goal, owner, m0, m, i, w, j, t.todo, t.pending, job);
      }
    }
  }

  lemma StoreKeepsJob(goal: Goal, owner: Owner, m0: Memory, m: Memory, i: nat, w: Write, j: nat, todo: seq<Job>, pending: seq<Write>, job: Job)
    requires Rightful(goal, owner, i, w) && JobIsRightful(goal, owner, j, m0, job) && Accounted(m0, m, todo, pending, job)
    ensures Accounted(m0, m[w.cell := w.value], todo, pending, job)
  {
    hide JobWrites;
    forall v | v in JobWrites(m0, job) && (v in pending || Read(m, v.cell) == v.value)
      ensures v in pending || Read(m[w.cell := w.value], v.cell) == v.value
    {
      assert Rightful(goal, owner, j, v);
    }
  }

  lemma StoreKeepsOwnThread(work: Work, goal: Goal, owner: Owner, m0: Memory, m: Memory, i: nat, todo: seq<Job>, pending: seq<Write>)
    requires pending != [] && ThreadOk(work, goal, owner, m0, m, i, Busy(todo, pending)) && ThreadIsDisciplined(work, goal, owner, i, m0)
    ensures ThreadOk(work, goal, owner, m0, m[pending[0].cell := pending[0].value], i, Busy(todo, pending[1..]))
  {
    hide StartIsStable, JobIsStable, JobWrites;
    var w := pending[0];
    var m' := m[w.cell := w.value];
    assert w in pending;
    forall job | job in work(i, m0) ensures Accounted(m0, m', todo, pending[1..], job) {
      StoreKeepsJob(goal, owner, m0, m, i, w, i, todo, pending, job);
      forall v | v in JobWrites(m0, job) && v in pending ensures v in pending[1..] || Read(m', v.cell) == v.value {
        if v != w {
          var k :| 0 <= k < |pending| && pending[k] == v;
          assert pending[1..][k - 1] == v;
        }
      }
    }
  }

  lemma LoadKeepsOwnThread(work: Work, goal: Goal, owner: Owner, m0: Memory, m: Memory, i: nat, todo: seq<Job>)
    requires todo != [] && ThreadOk(work, goal, owner, m0, m, i, Busy(todo, [])) && ThreadIsDisciplined(work, goal, owner, i, m0)
    requires OldOrGoal(goal, m0, m)
    ensures ThreadOk(work, goal, owner, m0, m, i, Busy(todo[1..], JobWrites(m, todo[0])))
  {
    hide StartIsStable, JobWrites;
    OldOrGoalKeepsRest(goal, m0, m);
    assert todo[0] in todo;
    assert JobIsStable(goal, m0, todo[0]) && JobIsRightful(goal, owner, i, m0, todo[0]);
    forall job | job in work(i, m0) ensures Accounted(m0, m, todo[1..], JobWrites(m, todo[0]), job) {
      if job in todo && job != todo[0] {
        var k :| 0 <= k < |todo| && todo[k] == job;
        assert todo[1..][k - 1] == job;
      }
    }
  }

  lemma StartKeepsOwnThread(work: Work, goal: Goal, owner: Owner, m0: Memory, m: Memory, i: nat)
    requires ThreadOk(work, goal, owner, m0, m, i, Ready) && ThreadIsDisciplined(work, goal, owner, i, m0) && OldOrGoal(goal, m0, m)
    ensures work(i, m) == work(i, m0) && ThreadOk(work, goal, owner, m0, m, i, Busy(work(i, m), []))
  {
    OldOrGoalKeepsRest(goal, m0, m);
  }

  /** Whichever microthread steps next, the invariant is kept. */
  lemma StepKeeps(work: Work, goal: Goal, owner: Owner, m0: Memory, s: System, i: nat)
    requires i < |s.threads| && Disciplined(work, goal, owner, |s.threads|, m0) && Invariant(work, goal, owner, m0, s)
    ensures Invariant(work, goal, owner, m0, Step(work, s, i))
  {
    hide ThreadOk, JobWrites, ThreadIsDisciplined;
    var s' := Step(work, s, i);
    assert ThreadOk(work, goal, owner, m0, s.memory, i, s.threads[i]) && ThreadIsDisciplined(work, goal, owner, i, m0);
    match s.threads[i]
    case Ready => StartKeepsOwnThread(work, goal, owner, m0, s.memory, i);
    case Busy(todo, pending) =>
      if pending != [] {
        PendingIsRightful(work, goal, owner, m0, s.memory, i, todo, pending);
        StoreKeepsOwnThread(work, goal, owner, m0, s.memory, i, todo, pending);
        forall j: nat | j < |s.threads| && j != i ensures ThreadOk(work, goal, owner, m0, s'.memory, j, s'.threads[j]) {
          assert ThreadIsDisciplined(work, goal, owner, j, m0);
          StoreKeepsThread(work, goal, owner, m0, s.memory, i, pending[0], j, s.threads[j]);
        }
      } else if todo != [] {
        LoadKeepsOwnThread(work, goal, owner, m0, s.memory, i, todo);
      }
  }

  lemma PendingIsRightful(work: Work, goal: Goal, owner: Owner, m0: Memory, m: Memory, i: nat, todo: seq<Job>, pending: seq<Write>)
    requires pending != [] && ThreadOk(work, goal, owner, m0, m, i, Busy(todo, pending))
    ensures Rightful(goal, owner, i, pending[0])
  {
    assert pending[0] in pending;
  }

  // -------- the end of a launch

  /** Everything anyone had to write has been written, and nothing else has changed. */
  ghost predicate Settled(work: Work, goal: Goal, count: nat, m0: Memory, m: Memory) {
    && OldOrGoal(goal, m0, m)
    && forall i: nat, job, w :: i < count && job in work(i, m0) && w in JobWrites(m0, job) ==> Landed(m, w)
  }

  ghost predicate Landed(m: Memory, w: Write) {
    Read(m, w.cell) == w.value
  }

  lemma FinishedIsSettled(work: Work, goal: Goal, owner: Owner, m0: Memory, s: System)
    requires Invariant(work, goal, owner, m0, s) && forall i: nat :: i < |s.threads| ==> Finished(s.threads[i])
    ensures Settled(work, goal, |s.threads|, m0, s.memory)
  {
    hide JobWrites;
    forall i: nat, job, w | i < |s.threads| && job in work(i, m0) && w in JobWrites(m0, job) ensures Landed(s.memory, w) {
      assert ThreadOk(work, goal, owner, m0, s.memory, i, s.threads[i]);
      assert Accounted(m0, s.memory, s.threads[i].todo, s.threads[i].pending, job);
    }
  }

  // -------- the launch ends

  /** How many steps a list of jobs takes. */
  function JobsCost(m0: Memory, jobs: seq<Job>): nat {
    if jobs == [] then 0 else 1 + |JobWrites(m0, jobs[0])| + JobsCost(m0, jobs[1..])
  }

  function ThreadCost(work: Work, m0: Memory, i: nat, t: Thread): nat {
    match t
    case Ready => 1 + JobsCost(m0, work(i, m0))
    case Busy(todo, pending) => |pending| + JobsCost(m0, todo)
  }

  /** How many steps are left, over the first n microthreads. */
  function Cost(work: Work, m0: Memory, threads: seq<Thread>, n: nat): nat
    requires n <= |threads|
  {
    if n == 0 then 0 else Cost(work, m0, threads, n - 1) + ThreadCost(work, m0, n - 1, threads[n - 1])
  }

  lemma {:induction false} CostDrops(work: Work, m0: Memory, threads: seq<Thread>, n: nat, i: nat, t: Thread)
    requires i < n <= |threads| && ThreadCost(work, m0, i, t) < ThreadCost(work, m0, i, threads[i])
    ensures Cost(work, m0, threads[i := t], n) < Cost(work, m0, threads, n)
  {
    if i < n - 1 {
      CostDrops(work, m0, threads, n - 1, i, t);
    } else {
      CostElsewhere(work, m0, threads, n - 1, i, t);
    }
  }

  lemma {:induction false} CostElsewhere(work: Work, m0: Memory, threads: seq<Thread>, n: nat, i: nat, t: Thread)
    requires n <= i < |threads|
    ensures Cost(work, m0, threads[i := t], n) == Cost(work, m0, threads, n)
  {
    if n > 0 {
      CostElsewhere(work, m0, threads, n - 1, i, t);
    }
  }

  lemma StepCosts(work: Work, goal: Goal, owner: Owner, m0: Memory, s: System, i: nat)
    requires i < |s.threads| && !Finished(s.threads[i]) && Disciplined(work, goal, owner, |s.threads|, m0) && Invariant(work, goal, owner, m0, s)
    ensures |Step(work, s, i).threads| == |s.threads|
    ensures Cost(work, m0, Step(work, s, i).threads, |s.threads|) < Cost(work, m0, s.threads, |s.threads|)
  {
    hide JobWrites, KeepsRest, JobIsRightful, Cost;
    assert ThreadOk(work, goal, owner, m0, s.memory, i, s.threads[i]) && ThreadIsDisciplined(work, goal, owner, i, m0);
    OldOrGoalKeepsRest(goal, m0, s.memory);
    match s.threads[i] {
      case Ready => StartKeepsOwnThread(work, goal, owner, m0, s.memory, i);
      case Busy(todo, pending) =>
        if pending == [] {
          assert todo[0] in todo;
          assert JobIsStable(goal, m0, todo[0]);
        }
    }
    CostDrops(work, m0, s.threads, |s.threads|, i, Step(work, s, i).threads[i]);
  }

  class Device {
    var memory: Memory

    constructor (m: Memory)
      ensures memory == m
    {
      memory := m;
    }

    /** Runs one launch to its end, stepping an arbitrary unfinished microthread each time. */
    method Launch(work: Work, ghost goal: Goal, ghost owner: Owner, count: nat)
      requires Disciplined(work, goal, owner, count, memory)
      modifies this
      ensures Settled(work, goal, count, old(memory), memory)
    {
      hide Disciplined, Invariant, Step, Settled, Cost;
      ghost var m0 := memory;
      var s := System(memory, seq(count, _ => Ready));
      InvariantStarts(work, goal, owner, m0, count);
      while exists i :: 0 <= i < |s.threads| && !Finished(s.threads[i])
        invariant |s.threads| == count && Invariant(work, goal, owner, m0, s)
        decreases Cost(work, m0, s.threads, |s.threads|)
      {
        var i: nat :| i < |s.threads| && !Finished(s.threads[i]);
        StepKeeps(work, goal, owner, m0, s, i);
        StepCosts(work, goal, owner, m0, s, i);
        s := Step(work, s, i);
      }
      FinishedIsSettled(work, goal, owner, m0, s);
      memory := s.memory;
    }
  }
}
