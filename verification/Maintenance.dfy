/** The maintenance loops: which closed days a compaction pass takes, and the locks under which compactions and
    cleanups run. */
module Maintenance {
  import opened Tables

  // ---- the days of one stream ----

  /** Consecutive local days by number, each starting at `start(i)`. */
  ghost predicate Calendar(start: int -> int) {
    forall i :: start(i) < start(i + 1)
  }

  predicate Closed(start: int -> int, closeDelay: int, now: int, day: int) {
    now >= start(day + 1) + closeDelay
  }

  lemma {:induction false} CalendarGrows(start: int -> int, i: int, j: int)
    requires Calendar(start) && i <= j
    ensures start(j) >= start(i) + (j - i)
    decreases j - i
  {
    if i < j {
      CalendarGrows(start, i, j - 1);
      assert start(j - 1) < start((j - 1) + 1);
    }
  }

  /** The enumeration of compactEligible: exactly the closed days from the first tick's on that need compaction, in
      order, up to the first day whose check failed. */
  method EligibleDays(start: int -> int, closeDelay: int, first: int, now: int, check: int -> (bool, bool))
    returns (days: seq<int>)
    requires Calendar(start)
    ensures forall i, j :: 0 <= i < j < |days| ==> days[i] < days[j]
    ensures forall d :: d in days <==>
      && first <= d && now >= start(d + 1) + closeDelay
      && check(d).1 && (forall e :: first <= e <= d ==> check(e).0)
  {
    days := [];
    var day := first;
    while now >= start(day + 1) + closeDelay
      invariant first <= day
      invariant forall e :: first <= e < day ==> check(e).0 && Closed(start, closeDelay, now, e)
      invariant forall i, j :: 0 <= i < j < |days| ==> days[i] < days[j]
      invariant forall d :: d in days <==> first <= d < day && check(d).1
      decreases now - closeDelay - start(day + 1)
    {
      var (ok, needs) := check(day);
      if !ok {
        return;
      }
      assert start(day + 1) < start((day + 1) + 1);
      assert forall i :: 0 <= i < |days| ==> days[i] in days;
      if needs {
        days := days + [day];
      }
      day := day + 1;
    }
    forall d | day <= d ensures !Closed(start, closeDelay, now, d) {
      CalendarGrows(start, day + 1, d + 1);
    }
    forall d {:trigger check(d)} ensures Closed(start, closeDelay, now, d) <==> now >= start(d + 1) + closeDelay {
      assert start(d + 1) == start(d + 1);
    }
  }

  // ---- the locks ----

  datatype Task = Task(stream: Stream, date: string)

  /** A compaction worker: waiting for a task, waiting for its stream's lock, compacting, or returned. */
  datatype Worker = Waiting | Received(task: Task) | Working(task: Task) | Returned

  datatype Holder = Free | CompactionPass | CleanupPass

  /** archiveMu, the running pass and the stream locks. `dropped` holds tasks a worker or the dispatcher gave up on. */
  datatype Machine = Machine(archive: Holder, cancelled: bool, tasks: multiset<Task>, queue: seq<Task>, closed: bool,
                             workers: seq<Worker>, locks: set<Stream>, done: multiset<Task>, dropped: multiset<Task>)

  datatype Step = BeginPass(tasks: seq<Task>,
    n: nat) | Receive(i: nat) | Refuse(i: nat) | LockStream(i: nat) | Finish(i: nat)
                | Close | Exit(i: nat) | EndPass | BeginCleanup | EndCleanup | Cancel

  predicate Enabled(m: Machine, s: Step) {
    match s
    case BeginPass(_, n) => m.archive.Free? && n > 0
    case Receive(i) => m.archive.CompactionPass? && i < |m.workers| && m.workers[i].Waiting? && |m.queue| > 0
      && !m.closed
    case Refuse(i) => i < |m.workers| && m.workers[i].Received? && m.cancelled
    case LockStream(i) => i < |m.workers| && m.workers[i].Received? && m.workers[i].task.stream !in m.locks
    case Finish(i) => i < |m.workers| && m.workers[i].Working?
    case Close => m.archive.CompactionPass? && !m.closed && (|m.queue| == 0 || m.cancelled)
    case Exit(i) => i < |m.workers| && m.workers[i].Waiting? && m.closed
    case EndPass => m.archive.CompactionPass? && m.closed && forall i :: 0 <= i < |m.workers| ==> m.workers[i].Returned?
    case BeginCleanup => m.archive.Free?
    case EndCleanup => m.archive.CleanupPass?
    case Cancel => true
  }

  function Next(m: Machine, s: Step): Machine
    requires Enabled(m, s)
  {
    match s
    case BeginPass(tasks, n) =>
      m.(archive := CompactionPass, tasks := multiset(tasks), queue := tasks, closed := false,
        workers := seq(n, _ => Waiting),
         done := multiset{}, dropped := multiset{})
    case Receive(i) => m.(workers := m.workers[i := Received(m.queue[0])], queue := m.queue[1..])
    case Refuse(i) => m.(workers := m.workers[i := Returned], dropped := m.dropped + multiset{m.workers[i].task})
    case LockStream(i) =>
      if m.cancelled then m.(workers := m.workers[i := Returned], dropped := m.dropped + multiset{m.workers[i].task})
      else m.(workers := m.workers[i := Working(m.workers[i].task)], locks := m.locks + {m.workers[i].task.stream})
    case Finish(i) =>
      m.(workers := m.workers[i := Waiting], locks := m.locks - {m.workers[i].task.stream},
        done := m.done + multiset{m.workers[i].task})
    case Close => m.(closed := true, dropped := m.dropped + multiset(m.queue), queue := [])
    case Exit(i) => m.(workers := m.workers[i := Returned])
    case EndPass => m.(archive := Free)
    case BeginCleanup => m.(archive := CleanupPass)
    case EndCleanup => m.(archive := Free)
    case Cancel => m.(cancelled := true)
  }

  /** How many workers have task `x` in hand. */
  function InHand(workers: seq<Worker>, x: Task): nat {
    if |workers| == 0 then 0
    else InHand(workers[..|workers|-1], x) + Holding(workers[|workers|-1], x)
  }

  function Holding(w: Worker, x: Task): nat {
    if (w.Received? || w.Working?) && w.task == x then 1 else 0
  }

  lemma {:induction false} InHandUpdated(workers: seq<Worker>, i: nat, w: Worker, x: Task)
    requires i < |workers|
    ensures InHand(workers[i := w], x) + Holding(workers[i], x) == InHand(workers, x) + Holding(w, x)
  {
    var n, updated := |workers| - 1, workers[i := w];
    if i < n {
      assert updated[..n] == workers[..n][i := w];
      InHandUpdated(workers[..n], i, w, x);
    } else {
      assert updated[..n] == workers[..n];
    }
  }

  lemma {:induction false} InHandNone(workers: seq<Worker>, x: Task)
    requires forall i :: 0 <= i < |workers| ==> !workers[i].Received? && !workers[i].Working?
    ensures InHand(workers, x) == 0
  {
    if |workers| > 0 {
      InHandNone(workers[..|workers|-1], x);
    }
  }

  /** How often `x` is queued, done or dropped. */
  function Elsewhere(m: Machine, x: Task): nat {
    multiset(m.queue)[x] + m.done[x] + m.dropped[x]
  }

  ghost predicate TasksOk(m: Machine) {
    forall x :: m.tasks[x] == Elsewhere(m, x) + InHand(m.workers, x)
  }

  predicate LocksOk(m: Machine) {
    && (forall i :: 0 <= i < |m.workers| && m.workers[i].Working? ==> m.workers[i].task.stream in m.locks)
    && (forall i, j :: 0 <= i < j < |m.workers| && m.workers[i].Working? && m.workers[j].Working? ==>
         m.workers[i].task.stream != m.workers[j].task.stream)
    && (forall stream :: stream in m.locks ==>
         exists i :: 0 <= i < |m.workers| && m.workers[i].Working? && m.workers[i].task.stream == stream)
  }

  /** A lock is held exactly by the one worker compacting its stream; compacting happens under archiveMu; every task of
      the pass is queued, in hand, done or, after cancellation only, dropped. */
  ghost predicate Ok(m: Machine) {
    && LocksOk(m)
    && (!m.archive.CompactionPass? ==> forall i :: 0 <= i < |m.workers| ==> m.workers[i].Returned?)
    && TasksOk(m)
    && (m.closed ==> m.queue == [])
    && (!m.cancelled ==> m.dropped == multiset{})
  }

  const RESTED: Machine := Machine(Free, false, multiset{}, [], false, [], {}, multiset{}, multiset{})

  lemma WorkerStepKeeps(m: Machine, s: Step, i: nat)
    requires Ok(m) && Enabled(m, s) && i < |m.workers|
    requires s == Receive(i) || s == Refuse(i) || s == LockStream(i) || s == Finish(i) || s == Exit(i)
    ensures Ok(Next(m, s))
  {
    LocksKept(m, s, i);
    TasksKept(m, s, i);
    RestKept(m, s, i);
  }

  lemma LocksKept(m: Machine, s: Step, i: nat)
    requires LocksOk(m) && Enabled(m, s) && i < |m.workers|
    requires s == Receive(i) || s == Refuse(i) || s == LockStream(i) || s == Finish(i) || s == Exit(i)
    ensures LocksOk(Next(m, s))
  {
    OtherLocks(m, Next(m, s), i);
  }

  lemma RestKept(m: Machine, s: Step, i: nat)
    requires Ok(m) && Enabled(m, s) && i < |m.workers|
    requires s == Receive(i) || s == Refuse(i) || s == LockStream(i) || s == Finish(i) || s == Exit(i)
    ensures var t := Next(m, s);
      && t.archive.CompactionPass?
      && (t.closed ==> t.queue == []) && (!t.cancelled ==> t.dropped == multiset{})
  {
  }

  lemma TaskMoves(m: Machine, s: Step, i: nat, x: Task)
    requires Enabled(m, s) && i < |m.workers|
    requires s == Receive(i) || s == Refuse(i) || s == LockStream(i) || s == Finish(i) || s == Exit(i)
    ensures Elsewhere(m, x) + Holding(m.workers[i], x) == Elsewhere(Next(m, s), x) + Holding(Next(m, s).workers[i], x)
  {
    if s.Receive? {
      assert m.queue == [m.queue[0]] + m.queue[1..];
      assert multiset(m.queue)[x] == multiset{m.queue[0]}[x] + multiset(m.queue[1..])[x];
    }
  }

  lemma TasksKept(m: Machine, s: Step, i: nat)
    requires Enabled(m, s) && i < |m.workers| && TasksOk(m)
    requires s == Receive(i) || s == Refuse(i) || s == LockStream(i) || s == Finish(i) || s == Exit(i)
    ensures TasksOk(Next(m, s))
  {
    var t := Next(m, s);
    forall x ensures t.tasks[x] == Elsewhere(t, x) + InHand(t.workers, x) {
      TaskMoves(m, s, i, x);
      InHandUpdated(m.workers, i, t.workers[i], x);
    }
  }

  lemma BeginKeeps(m: Machine, tasks: seq<Task>, n: nat)
    requires Ok(m) && Enabled(m, BeginPass(tasks, n))
    ensures Ok(Next(m, BeginPass(tasks, n)))
  {
    var t := Next(m, BeginPass(tasks, n));
    forall x ensures t.tasks[x] == Elsewhere(t, x) + InHand(t.workers, x) {
      InHandNone(t.workers, x);
    }
  }

  lemma CloseKeeps(m: Machine)
    requires Ok(m) && Enabled(m, Close)
    ensures Ok(Next(m, Close))
  {
    assert forall x :: Elsewhere(Next(m, Close), x) == Elsewhere(m, x);
  }

  lemma StepKeeps(m: Machine, s: Step)
    requires Ok(m) && Enabled(m, s)
    ensures Ok(Next(m, s))
  {
    match s {
      case BeginPass(tasks, n) => BeginKeeps(m, tasks, n);
      case Receive(i) => WorkerStepKeeps(m, s, i);
      case Refuse(i) => WorkerStepKeeps(m, s, i);
      case LockStream(i) => WorkerStepKeeps(m, s, i);
      case Finish(i) => WorkerStepKeeps(m, s, i);
      case Exit(i) => WorkerStepKeeps(m, s, i);
      case Close => CloseKeeps(m);
      case EndPass => EndPassKeeps(m);
      case BeginCleanup => LockStepKeeps(m, s);
      case EndCleanup => LockStepKeeps(m, s);
      case Cancel => LockStepKeeps(m, s);
    }
  }

  lemma EndPassKeeps(m: Machine)
    requires Ok(m) && Enabled(m, EndPass)
    ensures Ok(Next(m, EndPass))
  {
    assert (forall x :: Elsewhere(Next(m, EndPass), x) == Elsewhere(m, x)) && LocksOk(Next(m, EndPass));
  }

  lemma LockStepKeeps(m: Machine, s: Step)
    requires Ok(m) && Enabled(m, s) && (s.BeginCleanup? || s.EndCleanup? || s.Cancel?)
    ensures Ok(Next(m, s))
  {
    assert (forall x :: Elsewhere(Next(m, s), x) == Elsewhere(m, x)) && LocksOk(Next(m, s));
  }

  lemma OtherLocks(m: Machine, t: Machine, i: nat)
    requires LocksOk(m) && i < |m.workers| && |t.workers| == |m.workers| && t.workers == m.workers[i := t.workers[i]]
    requires t.workers[i].Working? ==>
      && !m.workers[i].Working? && t.workers[i].task.stream !in m.locks
      && t.locks == m.locks + {t.workers[i].task.stream}
    requires !t.workers[i].Working? ==>
      t.locks == if m.workers[i].Working? then m.locks - {m.workers[i].task.stream} else m.locks
    ensures LocksOk(t)
  {
    forall stream | stream in t.locks
      ensures exists k :: 0 <= k < |t.workers| && t.workers[k].Working? && t.workers[k].task.stream == stream
    {
      if t.workers[i].Working? && t.workers[i].task.stream == stream {
      } else {
        var k :| 0 <= k < |m.workers| && m.workers[k].Working? && m.workers[k].task.stream == stream;
        assert t.workers[k] == m.workers[k];
      }
    }
  }

  function Run(steps: seq<Step>): Machine {
    if |steps| == 0 then RESTED
    else
      var m := Run(steps[..|steps|-1]);
      if Enabled(m, steps[|steps|-1]) then Next(m, steps[|steps|-1]) else m
  }

  lemma {:induction false} RunOk(steps: seq<Step>)
    ensures Ok(Run(steps))
  {
    if |steps| > 0 {
      RunOk(steps[..|steps|-1]);
      var m := Run(steps[..|steps|-1]);
      if Enabled(m, steps[|steps|-1]) { StepKeeps(m, steps[|steps|-1]); }
    }
  }

  /** Two compactions of one stream, or a compaction and a cleanup, never run together. */
  lemma NeverTogether(steps: seq<Step>, i: nat, j: nat)
    requires i < |Run(steps).workers| && Run(steps).workers[i].Working?
    ensures !Run(steps).archive.CleanupPass?
    ensures j < |Run(steps).workers| && j != i && Run(steps).workers[j].Working? ==>
      Run(steps).workers[i].task.stream != Run(steps).workers[j].task.stream
  {
    RunOk(steps);
  }

  /** A pass that ends without cancellation compacted every task exactly as often as it was queued. */
  lemma PassCompletes(steps: seq<Step>)
    requires Enabled(Run(steps), EndPass) && !Run(steps).cancelled
    ensures Run(steps).done == Run(steps).tasks && Run(steps).locks == {}
  {
    RunOk(steps);
    var m := Run(steps);
    forall x ensures m.done[x] == m.tasks[x] {
      InHandNone(m.workers, x);
    }
    assert m.done == m.tasks;
  }

  /** A step that a worker or the dispatcher of the pass can take. */
  function Possible(m: Machine, i: nat): Step
    requires i < |m.workers|
  {
    match m.workers[i]
    case Working(_) => Finish(i)
    case Received(_) => LockStream(i)
    case Waiting => if m.closed then Exit(i) else if |m.queue| > 0 then Receive(i) else Close
    case Returned => Close
  }

  /** No deadlock: while a pass runs, some worker or the dispatcher can take a step. */
  lemma PassProgresses(steps: seq<Step>)
    requires Run(steps).archive.CompactionPass?
    ensures exists s :: Enabled(Run(steps), s) && !s.Cancel?
  {
    RunOk(steps);
    WorkersLeft(steps);
    Progresses(Run(steps));
  }

  lemma Progresses(m: Machine)
    requires Ok(m) && m.archive.CompactionPass?
    requires !m.closed && !m.cancelled ==> exists i :: 0 <= i < |m.workers| && !m.workers[i].Returned?
    ensures exists s :: Enabled(m, s) && !s.Cancel?
  {
    if i :| 0 <= i < |m.workers| && m.workers[i].Working? {
      assert Enabled(m, Possible(m, i));
    } else if i :| 0 <= i < |m.workers| && m.workers[i].Received? {
      assert Enabled(m, Possible(m, i));
    } else if i :| 0 <= i < |m.workers| && m.workers[i].Waiting? {
      assert Enabled(m, Possible(m, i));
    } else if m.closed {
      assert Enabled(m, EndPass);
    } else {
      assert Enabled(m, Close);
    }
  }

  /** While tasks wait and the pass is not cancelled, some worker is left to take them. */
  lemma {:induction false} WorkersLeft(steps: seq<Step>)
    ensures var m := Run(steps);
      m.archive.CompactionPass? && !m.closed && !m.cancelled ==>
        exists i :: 0 <= i < |m.workers| && !m.workers[i].Returned?
  {
    if |steps| > 0 {
      WorkersLeft(steps[..|steps|-1]);
      var m, s := Run(steps[..|steps|-1]), steps[|steps|-1];
      if Enabled(m, s) && Next(m, s).archive.CompactionPass? && !Next(m, s).closed && !Next(m, s).cancelled {
        if s.BeginPass? {
          assert !Next(m, s).workers[0].Returned?;
        } else {
          var i :| 0 <= i < |m.workers| && !m.workers[i].Returned?;
          assert !Next(m, s).workers[i].Returned?;
        }
      }
    }
  }
}
