/**
 The worker pool of src/base/TaskExecutor.cc as a state machine: submitters,
 workers and one stop(), interleaved at the granularity of the mutex and of one
 notification of the condition variable, with spurious wake-ups.
 */
module TaskExecutor {

  datatype Worker<T> =
    | Ready          // about to take the mutex and test the predicate
    | Waiting        // asleep on the condition variable
    | Busy(task: T)  // running a task outside the mutex
    | Exited

  datatype Stop = NotCalled | Flagged /* running_ cleared, notify_all to come */ | Joining | Joined

  datatype State<T> = State(
    tasks: seq<T>,
    running: bool,
    workers: seq<Worker<T>>,
    notifies: nat,        // submitters between their push and their notify_one
    stop: Stop,
    submitted: seq<T>,    // history: tasks pushed, in order
    popped: seq<T>,       // history: tasks taken, in order
    finished: seq<T>,     // history: tasks run to the end, in order
    cut: nat)             // how many had been submitted when running_ was cleared

  datatype Action<T> =
    | Submit(t: T)
    | NotifyOne(w: nat)   // wakes w if it sleeps; a notification nobody waits for is lost
    | Spurious(w: nat)
    | Lock(w: nat)        // the locked part of workerLoop
    | Finish(w: nat)
    | ClearRunning
    | NotifyAll
    | JoinAll

  function Start<T>(count: nat): State<T> {
    State([], true, seq(count, _ => Ready), 0, NotCalled, [], [], [], 0)
  }

  predicate Enabled<T>(s: State<T>, a: Action<T>) {
    match a
    case Submit(t) => true
    case NotifyOne(w) =>
      s.notifies > 0 &&
      ((w < |s.workers| && s.workers[w].Waiting?) || forall i :: 0 <= i < |s.workers| ==> !s.workers[i].Waiting?)
    case Spurious(w) => w < |s.workers| && s.workers[w].Waiting?
    case Lock(w) => w < |s.workers| && s.workers[w].Ready?
    case Finish(w) => w < |s.workers| && s.workers[w].Busy?
    case ClearRunning => s.running && s.stop.NotCalled?
    case NotifyAll => s.stop.Flagged?
    case JoinAll => s.stop.Joining? && forall i :: 0 <= i < |s.workers| ==> s.workers[i].Exited?
  }

  function Wake<T>(w: Worker<T>): Worker<T> {
    if w.Waiting? then Ready else w
  }

  function Next<T>(s: State<T>, a: Action<T>): State<T>
    requires Enabled(s, a)
  {
    match a
    case Submit(t) => s.(tasks := s.tasks + [t], submitted := s.submitted + [t], notifies := s.notifies + 1)
    case NotifyOne(w) =>
      s.(notifies := s.notifies - 1,
         workers := if w < |s.workers| then s.workers[w := Wake(s.workers[w])] else s.workers)
    case Spurious(w) => s.(workers := s.workers[w := Ready])
    case Lock(w) =>
      if s.tasks == [] && s.running then s.(workers := s.workers[w := Waiting])
      else if s.tasks == [] then s.(workers := s.workers[w := Exited])
      else s.(workers := s.workers[w := Busy(s.tasks[0])], tasks := s.tasks[1..], popped := s.popped + [s.tasks[0]])
    case Finish(w) => s.(workers := s.workers[w := Ready], finished := s.finished + [s.workers[w].task])
    case ClearRunning => s.(running := false, stop := Flagged, cut := |s.submitted|)
    case NotifyAll =>
      s.(stop := Joining, workers := seq(|s.workers|, i requires 0 <= i < |s.workers| => Wake(s.workers[i])))
    case JoinAll => s.(stop := Joined)
  }

  ghost predicate Reaches<T>(s: State<T>, actions: seq<Action<T>>, t: State<T>)
    decreases |actions|
  {
    if actions == [] then t == s
    else Enabled(s, actions[0]) && Reaches(Next(s, actions[0]), actions[1..], t)
  }

  // ---------------------------------------------------------------- invariant

  // The task a worker is running, if any.
  function Task<T>(w: Worker<T>): multiset<T> {
    if w.Busy? then multiset{w.task} else multiset{}
  }

  // The tasks the workers are running.
  function Held<T>(workers: seq<Worker<T>>): multiset<T> {
    if workers == [] then multiset{} else Task(workers[0]) + Held(workers[1..])
  }

  predicate Awake<T>(w: Worker<T>) { w.Ready? || w.Busy? }

  ghost predicate SomeAwake<T>(workers: seq<Worker<T>>) { exists w :: w in workers && Awake(w) }

  ghost predicate SomeAsleep<T>(workers: seq<Worker<T>>) { exists w :: w in workers && w.Waiting? }

  ghost predicate SomeExited<T>(workers: seq<Worker<T>>) { exists w :: w in workers && w.Exited? }

  // Work is never left to sleepers alone: a notification is on its way to one of them.
  ghost predicate NotStuck<T>(s: State<T>) {
    s.tasks != [] && SomeAsleep(s.workers) && !SomeAwake(s.workers) ==> s.notifies > 0 || s.stop.Flagged?
  }

  ghost predicate Inv<T>(s: State<T>) {
    && s.popped + s.tasks == s.submitted
    && multiset(s.finished) + Held(s.workers) == multiset(s.popped)
    && NotStuck(s)
    && (s.running <==> s.stop.NotCalled?)
    && (s.stop.Joining? || s.stop.Joined? ==> !SomeAsleep(s.workers))
    && (!s.running ==> s.cut <= |s.submitted|)
    && (SomeExited(s.workers) ==> !s.running && |s.popped| >= s.cut)
    && (s.stop.Joined? ==> forall w :: w in s.workers ==> w.Exited?)
  }

  lemma Balance<T>(a: multiset<T>, b: multiset<T>, sum: multiset<T>, b2: multiset<T>, lost: multiset<T>, won: multiset<T>)
    requires a + b == sum && b2 + lost == b + won
    ensures a + b2 + lost == sum + won && a + lost + b2 == sum + won
  {
    assert a + b2 + lost == a + (b2 + lost);
    assert a + lost + b2 == a + (b2 + lost);
    assert a + (b + won) == sum + won;
  }

  lemma {:induction false} HeldUpdate<T>(workers: seq<Worker<T>>, w: nat, to: Worker<T>)
    requires w < |workers|
    ensures Held(workers[w := to]) + Task(workers[w]) == Held(workers) + Task(to)
  {
    hide Task;
    var now := workers[w := to];
    assert Held(workers) == Task(workers[0]) + Held(workers[1..]);
    assert Held(now) == Task(now[0]) + Held(now[1..]);
    if w == 0 {
      assert now[1..] == workers[1..];
    } else {
      HeldUpdate(workers[1..], w - 1, to);
      assert now[1..] == workers[1..][w - 1 := to];
      Balance(Task(workers[0]), Held(workers[1..]), Held(workers), Held(now[1..]), Task(workers[w]), Task(to));
    }
  }

  lemma {:induction false} HeldSame<T>(a: seq<Worker<T>>, b: seq<Worker<T>>)
    requires |a| == |b| && forall i :: 0 <= i < |a| ==> Task(a[i]) == Task(b[i])
    ensures Held(a) == Held(b)
  {
    if a != [] { HeldSame(a[1..], b[1..]); }
  }

  lemma {:induction false} HeldNone<T>(a: seq<Worker<T>>)
    requires forall w :: w in a ==> !w.Busy?
    ensures Held(a) == multiset{}
  {
    if a != [] {
      assert a[0] in a;
      HeldNone(a[1..]);
    }
  }

  // What one worker's step does to the three existence tests.
  lemma WorkersUpdate<T>(workers: seq<Worker<T>>, i: nat, to: Worker<T>)
    requires i < |workers|
    ensures Awake(to) ==> SomeAwake(workers[i := to])
    ensures !to.Waiting? && SomeAsleep(workers[i := to]) ==> SomeAsleep(workers)
    ensures !to.Exited? && SomeExited(workers[i := to]) ==> SomeExited(workers)
  {
    var u := workers[i := to];
    assert u[i] in u;
    forall w | w in u && w != to ensures w in workers {
      var k :| 0 <= k < |u| && u[k] == w;
      assert workers[k] == w;
    }
  }

  // What worker i becoming `to` does to the invariant's ingredients.
  lemma WorkerStep<T>(s: State<T>, i: nat, to: Worker<T>)
    requires Inv(s) && i < |s.workers|
    ensures var u := s.workers[i := to];
      && (!to.Busy? ==> multiset(s.finished) + Task(s.workers[i]) + Held(u) == multiset(s.popped))
      && (!s.workers[i].Busy? ==> multiset(s.finished) + Held(u) == multiset(s.popped) + Task(to))
      && (!s.workers[i].Busy? && !to.Busy? ==> multiset(s.finished) + Held(u) == multiset(s.popped))
      && s.workers[i] in s.workers
      && (Awake(to) ==> SomeAwake(u))
      && (!to.Waiting? && SomeAsleep(u) ==> SomeAsleep(s.workers))
      && (!to.Exited? && SomeExited(u) ==> SomeExited(s.workers))
  {
    hide Held, SomeAwake, SomeAsleep, SomeExited;
    HeldUpdate(s.workers, i, to);
    WorkersUpdate(s.workers, i, to);
    Balance(multiset(s.finished), Held(s.workers), multiset(s.popped), Held(s.workers[i := to]), Task(s.workers[i]), Task(to));
    assert multiset(s.popped) + multiset{} == multiset(s.popped);
    assert multiset(s.finished) + multiset{} == multiset(s.finished);
  }

  lemma NotifyOneKeeps<T>(s: State<T>, w: nat)
    requires Inv(s) && Enabled(s, NotifyOne(w))
    ensures Inv(Next(s, NotifyOne(w)))
  {
    hide Held;
    if w < |s.workers| && s.workers[w].Waiting? {
      WorkerStep(s, w, Ready);
    } else {
      assert Next(s, NotifyOne(w)).workers == s.workers;
      assert !SomeAsleep(s.workers) by {
        forall x | x in s.workers ensures !x.Waiting? {
          var i :| 0 <= i < |s.workers| && s.workers[i] == x;
        }
      }
    }
  }

  lemma LockKeeps<T>(s: State<T>, w: nat)
    requires Inv(s) && Enabled(s, Lock(w))
    ensures Inv(Next(s, Lock(w)))
  {
    hide Held;
    var t := Next(s, Lock(w));
    WorkerStep(s, w, t.workers[w]);
    if s.tasks != [] {
      assert s.tasks == [s.tasks[0]] + s.tasks[1..];
      assert t.popped + t.tasks == s.popped + s.tasks;
      assert multiset(t.popped) == multiset(s.popped) + multiset{s.tasks[0]};
    }
  }

  lemma FinishKeeps<T>(s: State<T>, w: nat)
    requires Inv(s) && Enabled(s, Finish(w))
    ensures Inv(Next(s, Finish(w)))
  {
    hide Held;
    var t := Next(s, Finish(w));
    WorkerStep(s, w, Ready);
    assert multiset(t.finished) == multiset(s.finished) + multiset{s.workers[w].task};
  }

  lemma NotifyAllKeeps<T>(s: State<T>)
    requires Inv(s) && Enabled(s, NotifyAll)
    ensures Inv(Next(s, NotifyAll))
  {
    hide Held, SomeAwake, SomeAsleep, SomeExited;
    WakeAll(s.workers, Next(s, NotifyAll).workers);
  }

  lemma WakeAll<T>(workers: seq<Worker<T>>, woken: seq<Worker<T>>)
    requires |woken| == |workers| && forall i :: 0 <= i < |workers| ==> woken[i] == Wake(workers[i])
    ensures Held(woken) == Held(workers) && !SomeAsleep(woken) && (SomeExited(woken) ==> SomeExited(workers))
  {
    hide Held;
    HeldSame(woken, workers);
    forall w | w in woken ensures !w.Waiting? && (w.Exited? ==> w in workers) {
      var k :| 0 <= k < |woken| && woken[k] == w;
      assert w.Exited? ==> workers[k] == w;
    }
  }

  lemma JoinAllKeeps<T>(s: State<T>)
    requires Inv(s) && Enabled(s, JoinAll)
    ensures Inv(Next(s, JoinAll))
  {
    hide Held, SomeAwake, SomeAsleep, SomeExited;
    forall w | w in s.workers ensures w.Exited? {
      var i :| 0 <= i < |s.workers| && s.workers[i] == w;
    }
  }

  lemma NextKeeps<T>(s: State<T>, a: Action<T>)
    requires Inv(s) && Enabled(s, a)
    ensures Inv(Next(s, a)) && |Next(s, a).workers| == |s.workers|
  {
    hide Held, SomeAwake, SomeAsleep;
    match a
    case Submit(x) => assert s.popped + (s.tasks + [x]) == s.popped + s.tasks + [x];
    case NotifyOne(w) => NotifyOneKeeps(s, w);
    case Spurious(w) => WorkerStep(s, w, Ready);
    case Lock(w) => LockKeeps(s, w);
    case Finish(w) => FinishKeeps(s, w);
    case ClearRunning =>
    case NotifyAll => NotifyAllKeeps(s);
    case JoinAll => JoinAllKeeps(s);
  }

  lemma {:induction false} ReachesKeeps<T>(s: State<T>, actions: seq<Action<T>>, t: State<T>)
    requires Inv(s) && Reaches(s, actions, t)
    ensures Inv(t) && |t.workers| == |s.workers|
    decreases |actions|
  {
    hide Inv, Enabled, Next;
    if actions != [] {
      NextKeeps(s, actions[0]);
      ReachesKeeps(Next(s, actions[0]), actions[1..], t);
    }
  }

  lemma StartInv<T>(count: nat)
    ensures Inv(Start<T>(count))
  {
    HeldNone(Start<T>(count).workers);
  }

  // ---------------------------------------------------------------- the promises

  // In every interleaving tasks leave the queue in submission order, and none is run
  // twice: the finished ones and those being run are exactly the ones taken.
  lemma FirstInFirstOut<T>(count: nat, actions: seq<Action<T>>, t: State<T>)
    requires Reaches(Start(count), actions, t)
    ensures t.popped <= t.submitted && t.submitted[|t.popped|..] == t.tasks
    ensures multiset(t.finished) + Held(t.workers) == multiset(t.popped)
  {
    StartInv<T>(count);
    ReachesKeeps(Start(count), actions, t);
  }

  // No lost notification: tasks are never queued with every worker asleep and nobody about to wake one.
  lemma NoLostNotification<T>(count: nat, actions: seq<Action<T>>, t: State<T>)
    requires Reaches(Start(count), actions, t)
    ensures t.tasks != [] && t.workers != [] && (forall w :: w in t.workers ==> w.Waiting?)
        ==> t.notifies > 0 || t.stop.Flagged?
  {
    StartInv<T>(count);
    ReachesKeeps(Start(count), actions, t);
    if t.workers != [] { assert t.workers[0] in t.workers; }
  }

  // ---------------------------------------------------------------- stop

  // Every task submitted before running_ was cleared was taken and has run to its end.
  ghost predicate Drained<T>(t: State<T>) {
    && t.cut <= |t.popped| && t.popped <= t.submitted
    && t.submitted[..t.cut] == t.popped[..t.cut]
    && multiset(t.finished) == multiset(t.popped)
  }

  lemma JoinedDrained<T>(t: State<T>)
    requires Inv(t) && t.stop.Joined? && |t.workers| > 0
    ensures Drained(t)
  {
    assert t.workers[0] in t.workers;
    HeldNone(t.workers);
    assert t.submitted[..t.cut] == t.popped[..t.cut];
  }

  ghost predicate StopDrains<T(!new)>(count: nat) {
    forall actions: seq<Action<T>>, t: State<T> ::
      Reaches(Start(count), actions, t) && t.stop.Joined? ==> Drained(t)
  }

  // Once stop() has joined its workers all earlier tasks have run, in every
  // interleaving, exactly when the pool has a worker at all.
  lemma StopDrainsIff<T(!new)>(count: nat, x: T)
    ensures StopDrains<T>(count) <==> count >= 1
  {
    if count >= 1 {
      forall actions: seq<Action<T>>, t: State<T> | Reaches(Start(count), actions, t) && t.stop.Joined?
        ensures Drained(t)
      {
        StartInv<T>(count);
        ReachesKeeps(Start(count), actions, t);
        JoinedDrained(t);
      }
    } else {
      var s0 := Start<T>(0);
      var s1 := Next(s0, Submit(x));
      var s2 := Next(s1, ClearRunning);
      var s3 := Next(s2, NotifyAll);
      var s4 := Next(s3, JoinAll);
      OneMore(s3, JoinAll, [], s4);
      OneMore(s2, NotifyAll, [JoinAll], s4);
      OneMore(s1, ClearRunning, [NotifyAll, JoinAll], s4);
      OneMore(s0, Submit(x), [ClearRunning, NotifyAll, JoinAll], s4);
      assert !Drained(s4);
    }
  }

  lemma OneMore<T>(s: State<T>, a: Action<T>, more: seq<Action<T>>, t: State<T>)
    requires Enabled(s, a) && Reaches(Next(s, a), more, t)
    ensures Reaches(s, [a] + more, t)
  {
    assert ([a] + more)[1..] == more;
  }

  // What the workers have still to do once stop() waits for them.
  function Weight<T>(workers: seq<Worker<T>>): nat {
    if workers == [] then 0
    else (match workers[0] case Busy(_) => 2 case Exited => 0 case _ => 1) + Weight(workers[1..])
  }

  function Left<T>(s: State<T>): nat { 3 * |s.tasks| + Weight(s.workers) }

  lemma {:induction false} WeightUpdate<T>(workers: seq<Worker<T>>, w: nat, to: Worker<T>)
    requires w < |workers|
    ensures Weight(workers[w := to]) + Weight([workers[w]]) == Weight(workers) + Weight([to])
  {
    var new_ := workers[w := to];
    if w == 0 {
      assert new_[1..] == workers[1..];
    } else {
      WeightUpdate(workers[1..], w - 1, to);
      assert new_[1..] == workers[1..][w - 1 := to];
    }
  }

  // stop() cannot hang: while it joins, some worker can always step until all have
  // exited, and every worker step leaves less to do.
  lemma WorkerStepDecreases<T>(s: State<T>, a: Action<T>)
    requires Inv(s) && s.stop.Joining? && Enabled(s, a) && (a.Lock? || a.Finish?)
    ensures Left(Next(s, a)) < Left(s) && Next(s, a).stop.Joining? && Next(s, a).submitted == s.submitted
  {
    WeightUpdate(s.workers, a.w, Next(s, a).workers[a.w]);
  }

  lemma {:induction false} StopReturns<T>(s: State<T>) returns (actions: seq<Action<T>>, t: State<T>)
    requires Inv(s) && s.stop.Joining?
    ensures Reaches(s, actions, t) && t.stop.Joined? && t.submitted == s.submitted
    ensures forall a :: a in actions ==> a.Lock? || a.Finish? || a.JoinAll?
    decreases Left(s)
  {
    hide Held;
    if forall w :: w in s.workers ==> w.Exited? {
      t := Next(s, JoinAll);
      actions := [JoinAll];
      OneMore(s, JoinAll, [], t);
    } else {
      var w :| w in s.workers && !w.Exited?;
      var i: nat :| i < |s.workers| && s.workers[i] == w;
      var a := if w.Busy? then Finish(i) else Lock(i);
      NextKeeps(s, a);
      WorkerStepDecreases(s, a);
      var more, last := StopReturns(Next(s, a));
      OneMore(s, a, more, last);
      return [a] + more, last;
    }
  }
}

// The object's critical sections, each one move of the state machine.
module WorkerPool {
  import opened TaskExecutor

  datatype Locked<T> = Run(task: T) | Wait | Exit

  class Executor<T> {
    var tasks: seq<T>
    var running: bool
    ghost var rest: State<T>  // where the threads are, and the histories

    ghost function Abs(): State<T>
      reads this
    {
      rest.(tasks := tasks, running := running)
    }

    // start() with count workers.
    constructor (count: nat)
      ensures Abs() == Start<T>(count)
    {
      tasks, running := [], true;
      rest := Start(count);
    }

    method Submit(task: T)
      modifies this
      ensures Abs() == Next(old(Abs()), TaskExecutor.Submit(task))
    {
      tasks := tasks + [task];
      rest := rest.(submitted := rest.submitted + [task], notifies := rest.notifies + 1);
    }

    // The part of workerLoop under the mutex, for worker w: wait, take a task, or leave.
    method Take(w: nat) returns (next: Locked<T>)
      requires Enabled(Abs(), Lock(w))
      modifies this
      ensures Abs() == Next(old(Abs()), Lock(w))
      ensures next == if old(tasks) != [] then Run(old(tasks)[0]) else if running then Wait else Exit
    {
      if tasks == [] && running {
        rest := rest.(workers := rest.workers[w := Waiting]);
        return Wait;
      }
      if !running && tasks == [] {
        rest := rest.(workers := rest.workers[w := Exited]);
        return Exit;
      }
      var task := tasks[0];
      tasks := tasks[1..];
      rest := rest.(workers := rest.workers[w := Busy(task)], popped := rest.popped + [task]);
      return Run(task);
    }

    // The part of stop() under the mutex: only the first call goes on.
    method ClearRunning() returns (first: bool)
      requires running <==> rest.stop.NotCalled?
      modifies this
      ensures first == old(running)
      ensures Abs() == if first then Next(old(Abs()), TaskExecutor.ClearRunning) else old(Abs())
    {
      if !running {
        return false;
      }
      running := false;
      rest := rest.(stop := Flagged, cut := |rest.submitted|);
      return true;
    }
  }
}
