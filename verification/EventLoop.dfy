/**
 The reactor of src/net/EventLoop.cc as a state machine over the steps its
 threads can interleave: the loop thread at statement level, any number of other
 threads at the granularity of the mutex and of one write to the eventfd.
 */
module EventLoop {

  // An eventfd counter never exceeds this; a write that would is refused.
  const EVENTFD_MAX := 0xffff_ffff_ffff_fffe

  // Where the loop thread is.
  datatype Pc =
    | NotStarted       // loop() not called yet
    | CheckQuit        // about to test quit_
    | Polling          // inside poll
    | Handling(wakeActive: bool)  // handling the channels poll returned
    | BeforeSwap       // callingPendingFunctors_ set, queue not yet taken
    | Running(owesWake: bool)     // running the batch; owesWake: it pushed and has still to wake
    | Stopped

  datatype State<F> = State(
    pc: Pc,
    quit: bool,
    calling: bool,      // callingPendingFunctors_
    eventfd: nat,
    pending: seq<F>,    // pendingFunctors_
    batch: seq<F>,      // functors of doPendingFunctors, not yet run
    waking: nat,        // other threads between their push or quit and their wakeup
    queued: seq<F>,     // history: every functor ever queued
    executed: seq<F>,   // history: every functor run
    cut: nat)           // history: how many had been queued at the last swap

  function Init<F>(): State<F> {
    State(NotStarted, false, false, 0, [], [], 0, [], [], 0)
  }

  // wakeup(): add one to the counter unless it is saturated.
  function Bump(eventfd: nat): nat {
    if eventfd < EVENTFD_MAX then eventfd + 1 else eventfd
  }

  // Append f to the queue under the mutex.
  function Push<F>(s: State<F>, f: F): State<F> {
    s.(pending := s.pending + [f], queued := s.queued + [f])
  }

  datatype Action<F> =
    | BeginLoop                 // loop() clears quit_ before it first tests it
    | TestQuit
    | PollReturns(wake: bool)   // with the wake-up channel among the active ones, or not
    | HandleRead                // the wake-up channel's handler reads the eventfd
    | HandlerQueues(f: F)       // a handler calls queueInLoop on its own loop
    | LoopQuits                 // a handler or functor calls quit on its own loop
    | StartPending
    | Swap
    | RunNext
    | FunctorQueues(f: F)       // a running functor calls queueInLoop on its own loop
    | FunctorWakes              // and then wakeup, because functors are being called
    | EndPending
    | OtherQueues(f: F)         // another thread: push
    | OtherQuits                // another thread: quit_ = true
    | OtherWakes                // another thread: the wakeup that follows

  predicate Enabled<F>(s: State<F>, a: Action<F>) {
    match a
    case BeginLoop => s.pc.NotStarted?
    case TestQuit => s.pc.CheckQuit?
    case PollReturns(wake) => s.pc.Polling? && (wake ==> s.eventfd > 0)
    case HandleRead => s.pc.Handling? && s.pc.wakeActive
    case HandlerQueues(f) => s.pc.Handling?
    case LoopQuits => s.pc.Handling? || (s.pc.Running? && !s.pc.owesWake)
    case StartPending => s.pc.Handling? && !s.pc.wakeActive
    case Swap => s.pc.BeforeSwap?
    case RunNext => s.pc.Running? && !s.pc.owesWake && s.batch != []
    case FunctorQueues(f) => s.pc.Running? && !s.pc.owesWake
    case FunctorWakes => s.pc.Running? && s.pc.owesWake
    case EndPending => s.pc.Running? && !s.pc.owesWake && s.batch == []
    case OtherQueues(f) => true
    case OtherQuits => true
    case OtherWakes => s.waking > 0
  }

  function Next<F>(s: State<F>, a: Action<F>): State<F>
    requires Enabled(s, a)
  {
    match a
    case BeginLoop => s.(pc := CheckQuit, quit := false)
    case TestQuit => s.(pc := if s.quit then Stopped else Polling)
    case PollReturns(wake) => s.(pc := Handling(wake))
    case HandleRead => s.(pc := Handling(false), eventfd := 0)
    case HandlerQueues(f) =>
      // On the loop thread, outside doPendingFunctors: queueInLoop sees calling == false and does not wake.
      if s.calling then Push(s, f).(eventfd := Bump(s.eventfd)) else Push(s, f)
    case LoopQuits => s.(quit := true)
    case StartPending => s.(pc := BeforeSwap, calling := true)
    case Swap => s.(pc := Running(false), batch := s.pending, pending := [], cut := |s.queued|)
    case RunNext => s.(batch := s.batch[1..], executed := s.executed + [s.batch[0]])
    case FunctorQueues(f) => Push(s, f).(pc := Running(s.calling))
    case FunctorWakes => s.(pc := Running(false), eventfd := Bump(s.eventfd))
    case EndPending => s.(pc := CheckQuit, calling := false)
    case OtherQueues(f) => Push(s, f).(waking := s.waking + 1)
    case OtherQuits => s.(quit := true, waking := s.waking + 1)
    case OtherWakes => s.(waking := s.waking - 1, eventfd := Bump(s.eventfd))
  }

  // s leads to t by the actions in turn.
  ghost predicate Reaches<F>(s: State<F>, actions: seq<Action<F>>, t: State<F>)
    decreases |actions|
  {
    if actions == [] then t == s
    else Enabled(s, actions[0]) && Reaches(Next(s, actions[0]), actions[1..], t)
  }

  // ---------------------------------------------------------------- safety

  // Something will end or prevent a block in poll.
  predicate WakeComing<F>(s: State<F>) {
    s.eventfd > 0 || s.waking > 0 || (s.pc.Running? && s.pc.owesWake)
  }

  ghost predicate Inv<F>(s: State<F>) {
    // The flag is up exactly while the functors are taken and run.
    && (s.calling <==> s.pc.BeforeSwap? || s.pc.Running?)
    && (s.batch != [] ==> s.pc.Running?)
    // Past the swap, whatever is in the queue has a wake-up on its way.
    && (s.pending != [] && (s.pc.Running? || s.pc.NotStarted? || s.pc.CheckQuit? || s.pc.Polling?) ==> WakeComing(s))
    && (s.quit && s.pc.Polling? ==> WakeComing(s))
    && (s.pc.Handling? && s.pc.wakeActive ==> s.eventfd > 0)
    // First in, first out, each once.
    && s.executed + s.batch + s.pending == s.queued
    // What is run or being run was there at the last swap.
    && s.cut == |s.executed| + |s.batch|
  }

  // A push at the end of the queue keeps the accounts.
  lemma PushAccounts<F>(s: State<F>, f: F)
    requires s.executed + s.batch + s.pending == s.queued
    ensures s.executed + s.batch + (s.pending + [f]) == s.queued + [f]
  {
    assert s.executed + s.batch + (s.pending + [f]) == (s.executed + s.batch + s.pending) + [f];
  }

  lemma PushKeeps<F>(s: State<F>, a: Action<F>)
    requires Inv(s) && Enabled(s, a) && (a.HandlerQueues? || a.FunctorQueues? || a.OtherQueues?)
    ensures Inv(Next(s, a))
  {
    PushAccounts(s, a.f);
  }

  lemma SwapKeeps<F>(s: State<F>)
    requires Inv(s) && Enabled(s, Swap)
    ensures Inv(Next(s, Swap))
  {
    assert s.batch == [];
    assert s.executed + s.pending + [] == s.executed + s.batch + s.pending;
    assert |s.executed + s.batch + s.pending| == |s.executed| + |s.pending|;
  }

  lemma RunNextKeeps<F>(s: State<F>)
    requires Inv(s) && Enabled(s, RunNext)
    ensures Inv(Next(s, RunNext))
  {
    assert s.executed + [s.batch[0]] + s.batch[1..] == s.executed + s.batch;
  }

  lemma MoveKeeps<F>(s: State<F>, a: Action<F>)
    requires Inv(s) && Enabled(s, a) && !a.Swap? && !a.RunNext?
    requires !a.HandlerQueues? && !a.FunctorQueues? && !a.OtherQueues?
    ensures Inv(Next(s, a))
  {}

  lemma NextKeeps<F>(s: State<F>, a: Action<F>)
    requires Inv(s) && Enabled(s, a)
    ensures Inv(Next(s, a))
  {
    hide Inv, Enabled, Next;
    if a.Swap? {
      SwapKeeps(s);
    } else if a.RunNext? {
      RunNextKeeps(s);
    } else if a.HandlerQueues? || a.FunctorQueues? || a.OtherQueues? {
      PushKeeps(s, a);
    } else {
      MoveKeeps(s, a);
    }
  }

  lemma {:induction false} ReachesKeeps<F>(s: State<F>, actions: seq<Action<F>>, t: State<F>)
    requires Inv(s) && Reaches(s, actions, t)
    ensures Inv(t)
    decreases |actions|
  {
    hide Inv, Next, Enabled;
    if actions != [] {
      NextKeeps(s, actions[0]);
      ReachesKeeps(Next(s, actions[0]), actions[1..], t);
    }
  }

  // No lost wake-up: a loop blocked in poll with work queued, or told to quit, has the
  // eventfd raised or another thread about to raise it.
  lemma NoLostWakeup<F>(actions: seq<Action<F>>, t: State<F>)
    requires Reaches(Init(), actions, t)
    ensures t.pc.Polling? && (t.pending != [] || t.quit) ==> t.eventfd > 0 || t.waking > 0
  {
    ReachesKeeps(Init(), actions, t);
  }

  // Functors run in the order they were queued, none twice, none skipped.
  lemma RunInQueueOrder<F>(actions: seq<Action<F>>, t: State<F>)
    requires Reaches(Init(), actions, t)
    ensures t.executed <= t.queued
    ensures t.queued[|t.executed|..] == t.batch + t.pending
  {
    ReachesKeeps(Init(), actions, t);
    assert t.queued == t.executed + (t.batch + t.pending);
  }

  // Actions that write to the eventfd.
  predicate Wakes<F>(a: Action<F>) { a.OtherWakes? || a.FunctorWakes? || a.HandlerQueues? }

  // Once read, the eventfd stays down until somebody wakes the loop: it does not spin.
  lemma {:induction false} SilentAfterRead<F>(s: State<F>, actions: seq<Action<F>>, t: State<F>)
    requires Enabled(s, HandleRead) && Reaches(Next(s, HandleRead), actions, t)
    requires forall i :: 0 <= i < |actions| ==> !Wakes(actions[i])
    ensures t.eventfd == 0
  {
    StaysDown(Next(s, HandleRead), actions, t);
  }

  lemma {:induction false} StaysDown<F>(s: State<F>, actions: seq<Action<F>>, t: State<F>)
    requires Reaches(s, actions, t) && s.eventfd == 0 && forall i :: 0 <= i < |actions| ==> !Wakes(actions[i])
    ensures t.eventfd == 0
    decreases |actions|
  {
    if actions != [] {
      assert forall i :: 0 <= i < |actions[1..]| ==> actions[1..][i] == actions[i + 1];
      StaysDown(Next(s, actions[0]), actions[1..], t);
    }
  }

  // Wake-ups of other threads add up in the eventfd, to its limit.
  lemma {:induction false} WakesAddUp<F>(s: State<F>, actions: seq<Action<F>>, t: State<F>)
    requires Reaches(s, actions, t) && s.eventfd <= EVENTFD_MAX
    requires forall i :: 0 <= i < |actions| ==> actions[i].OtherWakes?
    ensures t.eventfd == if s.eventfd + |actions| <= EVENTFD_MAX then s.eventfd + |actions| else EVENTFD_MAX
    decreases |actions|
  {
    if actions != [] {
      assert forall i :: 0 <= i < |actions[1..]| ==> actions[1..][i] == actions[i + 1];
      WakesAddUp(Next(s, actions[0]), actions[1..], t);
    }
  }

  // ---------------------------------------------------------------- quit

  predicate IsQuit<F>(a: Action<F>) { a.LoopQuits? || a.OtherQuits? }

  ghost predicate HasQuit<F>(actions: seq<Action<F>>) { exists i :: 0 <= i < |actions| && IsQuit(actions[i]) }

  lemma HasQuitCons<F>(a: Action<F>, more: seq<Action<F>>)
    ensures HasQuit([a] + more) <==> IsQuit(a) || HasQuit(more)
  {
    var all := [a] + more;
    if i :| 0 <= i < |more| && IsQuit(more[i]) { assert all[i + 1] == more[i]; }
    if IsQuit(a) { assert all[0] == a; }
    assert forall i :: 0 < i < |all| ==> all[i] == more[i - 1];
  }

  lemma {:induction false} QuitStays<F>(s: State<F>, actions: seq<Action<F>>, t: State<F>)
    requires Reaches(s, actions, t) && !s.pc.NotStarted?
    ensures !t.pc.NotStarted? && (t.quit <==> s.quit || HasQuit(actions))
    decreases |actions|
  {
    hide HasQuit;
    if actions == [] {
      NoQuit<F>();
    } else {
      QuitStays(Next(s, actions[0]), actions[1..], t);
      HasQuitCons(actions[0], actions[1..]);
      assert actions == [actions[0]] + actions[1..];
    }
  }

  lemma NoQuit<F>()
    ensures !HasQuit<F>([])
  {}

  // The quit_ flag of a started loop is up exactly if somebody asked after loop() began: an
  // earlier request is lost.
  lemma {:induction false} QuitHonouredIff<F>(s: State<F>, actions: seq<Action<F>>, t: State<F>) returns (k: nat)
    requires Reaches(s, actions, t) && s.pc.NotStarted? && !t.pc.NotStarted?
    ensures k < |actions| && actions[k].BeginLoop? && (t.quit <==> HasQuit(actions[k + 1..]))
    decreases |actions|
  {
    hide HasQuit;
    var a, next := actions[0], Next(s, actions[0]);
    if a.BeginLoop? {
      QuitStays(next, actions[1..], t);
      return 0;
    }
    var j := QuitHonouredIff(next, actions[1..], t);
    assert actions[1..][j + 1..] == actions[j + 2..];
    return j + 1;
  }

  // ---------------------------------------------------------------- progress

  // The loop thread's own next action, given that no handler or functor calls back
  // and poll returns only because of the eventfd.
  function OwnAction<F>(s: State<F>): (a: Action<F>)
    requires !s.pc.Stopped? && (s.pc.Polling? ==> s.eventfd > 0)
    ensures Enabled(s, a)
  {
    match s.pc
    case NotStarted => BeginLoop
    case CheckQuit => TestQuit
    case Polling => PollReturns(true)
    case Handling(wakeActive) => if wakeActive then HandleRead else StartPending
    case BeforeSwap => Swap
    case Running(owesWake) => if owesWake then FunctorWakes else if s.batch != [] then RunNext else EndPending
  }

  // Steps of its own the loop thread still has to take until it has run the functor queued i-th.
  function StepsTo<F>(s: State<F>, i: nat): nat
    requires |s.executed| <= i
  {
    var b := i - |s.executed|;
    match s.pc
    case Running(owesWake) => (if owesWake then 1 else 0) + if b < |s.batch| then b + 1 else b + 7
    case NotStarted => b + 7
    case CheckQuit => b + 6
    case Polling => b + 5
    case Handling(wakeActive) => (if wakeActive then 1 else 0) + b + 3
    case BeforeSwap => b + 2
    case Stopped => 0
  }

  // Actions by which the loop thread goes on with its own code.
  predicate Advances<F>(a: Action<F>) {
    a.BeginLoop? || a.TestQuit? || a.PollReturns? || a.HandleRead? || a.StartPending? || a.Swap? || a.RunNext? || a.FunctorWakes? || a.EndPending?
  }

  // In every interleaving each own step of the loop brings the i-th functor nearer, unless
  // it is the test that finds the loop told to quit; and nothing another thread or a
  // handler does can push it back.
  lemma NeverDelayed<F>(s: State<F>, a: Action<F>, i: nat)
    requires Inv(s) && Enabled(s, a) && |s.executed| <= i < |s.queued|
    ensures var t := Next(s, a);
      && (Advances(a) ==> i < |t.executed| || StepsTo(t, i) < StepsTo(s, i) || (a.TestQuit? && s.quit))
      && (a.TestQuit? && s.quit ==> t.pc.Stopped? && t.executed == s.executed)
      && (a.OtherQueues? || a.OtherQuits? || a.OtherWakes? || a.HandlerQueues? ==>
            i >= |t.executed| && StepsTo(t, i) == StepsTo(s, i))
  {
    assert |s.executed| + |s.batch| + |s.pending| == |s.queued|;
  }

  // Left to itself, a loop that has not been told to quit, or not since it began, runs
  // everything queued, and never waits for a time-out or another event to do so.
  lemma {:induction false} Drains<F>(s: State<F>) returns (actions: seq<Action<F>>, t: State<F>)
    requires Inv(s) && (s.quit ==> s.pc.NotStarted?) && !s.pc.Stopped? && s.waking == 0
    ensures Reaches(s, actions, t) && forall a :: a in actions ==> Advances(a)
    ensures t.executed == t.queued == s.queued
    decreases if s.batch + s.pending == [] then 0 else StepsTo(s, |s.queued| - 1)
  {
    assert |s.executed| + |s.batch| + |s.pending| == |s.queued|;
    if s.batch + s.pending == [] {
      assert s.executed + s.batch + s.pending == s.executed;
      return [], s;
    }
    var a := OwnAction(s);
    var next := Next(s, a);
    NextKeeps(s, a);
    NeverDelayed(s, a, |s.queued| - 1);
    OwnActionQuiet(s);
    var more, last := Drains(next);
    assert ([a] + more)[1..] == more;
    return [a] + more, last;
  }

  lemma OwnActionQuiet<F>(s: State<F>)
    requires !s.pc.Stopped? && (s.pc.Polling? ==> s.eventfd > 0) && (s.quit ==> s.pc.NotStarted?)
    ensures var a := OwnAction(s);
      var t := Next(s, a);
      Advances(a) && t.queued == s.queued && t.waking == s.waking && !t.quit && !t.pc.Stopped?
  {}

  // ---------------------------------------------------------------- the end of the loop

  // In every run what has been run, or is in the batch, is what was queued by the last swap;
  // so a loop that has stopped has run everything if and only if nothing was queued since.
  lemma StoppedIff<F>(actions: seq<Action<F>>, t: State<F>)
    requires Reaches(Init(), actions, t)
    ensures t.cut <= |t.queued| && t.executed + t.batch == t.queued[..t.cut] && t.pending == t.queued[t.cut..]
    ensures t.pc.Stopped? ==> t.executed == t.queued[..t.cut] && (t.executed == t.queued <==> t.cut == |t.queued|)
  {
    ReachesKeeps(Init(), actions, t);
    assert t.queued == (t.executed + t.batch) + t.pending;
    if t.pc.Stopped? {
      assert t.executed + t.batch == t.executed;
      assert |t.queued[..t.cut]| == t.cut;
    }
  }

  // The loop has still a swap to make before it tests quit_ again.
  predicate SwapsFirst<F>(s: State<F>) { s.pc.Polling? || s.pc.Handling? || s.pc.BeforeSwap? }

  // Left to itself, a loop told to quit stops, without a time-out; and it has run everything
  // queued by now if and only if nothing is left in the queue or it has a swap to make first.
  lemma {:induction false} QuitDrainsIff<F>(s: State<F>) returns (actions: seq<Action<F>>, t: State<F>)
    requires Inv(s) && s.quit && !s.pc.NotStarted? && !s.pc.Stopped? && s.waking == 0
    ensures Reaches(s, actions, t) && forall a :: a in actions ==> Advances(a)
    ensures t.pc.Stopped? && t.queued == s.queued
    ensures t.executed == t.queued <==> s.pending == [] || SwapsFirst(s)
    decreases StepsToStop(s)
  {
    var a := OwnAction(s);
    var next := Next(s, a);
    OwnActionQuits(s);
    NextKeeps(s, a);
    var more;
    if next.pc.Stopped? {
      assert s.executed + s.batch == s.executed && |s.executed + s.pending| == |s.executed| + |s.pending|;
      assert s.executed + [] == s.executed;
      more, t := [], next;
    } else {
      more, t := QuitDrainsIff(next);
    }
    actions := [a] + more;
    assert actions[1..] == more;
  }

  // How many steps of its own a loop told to quit takes until it stops.
  function StepsToStop<F>(s: State<F>): nat {
    match s.pc
    case NotStarted => 0
    case CheckQuit => 1
    case Running(owesWake) => (if owesWake then 1 else 0) + |s.batch| + 2
    case BeforeSwap => |s.pending| + 3
    case Handling(wakeActive) => (if wakeActive then 1 else 0) + |s.pending| + 4
    case Polling => |s.pending| + 6
    case Stopped => 0
  }

  lemma OwnActionQuits<F>(s: State<F>)
    requires Inv(s) && s.quit && !s.pc.NotStarted? && !s.pc.Stopped? && s.waking == 0
    ensures s.pc.Polling? ==> s.eventfd > 0
    ensures var a := OwnAction(s);
      var t := Next(s, a);
      && Advances(a) && t.queued == s.queued && t.waking == 0 && t.quit && !t.pc.NotStarted?
      && (t.pc.Stopped? <==> s.pc.CheckQuit?) && (t.pc.Stopped? ==> t.executed == s.executed)
      && (!t.pc.Stopped? ==> StepsToStop(t) < StepsToStop(s))
      && (!t.pc.Stopped? ==> ((t.pending == [] || SwapsFirst(t)) <==> (s.pending == [] || SwapsFirst(s))))
  {}

  // Such a loop: what another thread queues and then tells to quit never runs if the loop
  // has yet to test quit_.
  lemma QuitLeavesBehind<F>(f: F) returns (t: State<F>)
    ensures Reaches(Init(), [BeginLoop, OtherQueues(f), OtherQuits, TestQuit], t)
    ensures t.pc.Stopped? && t.queued == [f] && t.executed == []
  {
    var s1 := Next(Init(), BeginLoop);
    var s2 := Next(s1, OtherQueues(f));
    var s3 := Next(s2, OtherQuits);
    t := Next(s3, TestQuit);
    var a3: seq<Action<F>> := [TestQuit];
    assert a3[1..] == [] && Reaches(s3, a3, t);
    var a2 := [OtherQuits, TestQuit];
    assert a2[1..] == a3 && Reaches(s2, a2, t);
    var a1 := [OtherQueues(f), OtherQuits, TestQuit];
    assert a1[1..] == a2 && Reaches(s1, a1, t);
    assert [BeginLoop, OtherQueues(f), OtherQuits, TestQuit][1..] == a1;
  }
}

// The object: each method runs the statements of the source and makes the moves of the
// state machine that they stand for.
module Reactor {
  import opened EventLoop

  class Loop<F> {
    var quitting: bool
    var callingPendingFunctors: bool
    var wakeupCounter: nat
    var pendingFunctors: seq<F>
    ghost var rest: State<F>  // where the threads are, and the histories

    ghost function Abs(): State<F>
      reads this
    {
      rest.(quit := quitting, calling := callingPendingFunctors, eventfd := wakeupCounter, pending := pendingFunctors)
    }

    constructor ()
      ensures Abs() == Init<F>()
    {
      quitting, callingPendingFunctors, wakeupCounter, pendingFunctors := false, false, 0, [];
      rest := Init();
    }

    // The first two statements of loop().
    method Begin()
      requires Enabled(Abs(), BeginLoop)
      modifies this
      ensures Abs() == Next(old(Abs()), BeginLoop)
    {
      quitting := false;
      rest := rest.(pc := CheckQuit);
    }

    method Wakeup()
      modifies this`wakeupCounter
      ensures wakeupCounter == Bump(old(wakeupCounter))
    {
      if wakeupCounter < EVENTFD_MAX {
        wakeupCounter := wakeupCounter + 1;
      }
    }

    method HandleRead()
      requires Enabled(Abs(), EventLoop.HandleRead)
      modifies this
      ensures Abs() == Next(old(Abs()), EventLoop.HandleRead)
    {
      wakeupCounter := 0;
      rest := rest.(pc := Handling(false));
    }

    // Another thread asks the loop to end.
    method Quit()
      modifies this
      ensures Abs() == Next(Next(old(Abs()), OtherQuits), OtherWakes)
    {
      quitting := true;
      Wakeup();
    }

    // The queue grows under the mutex; whoever is not the loop thread, or is a functor
    // being run, wakes the loop.
    method QueueInLoop(cb: F, inLoopThread: bool)
      requires inLoopThread ==> rest.pc.Handling? || rest.pc == Running(false)
      requires callingPendingFunctors <==> rest.pc.BeforeSwap? || rest.pc.Running?
      modifies this
      ensures !inLoopThread ==> Abs() == Next(Next(old(Abs()), OtherQueues(cb)), OtherWakes)
      ensures inLoopThread && old(rest).pc.Handling? ==> Abs() == Next(old(Abs()), HandlerQueues(cb))
      ensures inLoopThread && old(rest).pc.Running? ==> Abs() == Next(Next(old(Abs()), FunctorQueues(cb)), FunctorWakes)
    {
      pendingFunctors := pendingFunctors + [cb];
      rest := rest.(queued := rest.queued + [cb]);
      if !inLoopThread || callingPendingFunctors {
        Wakeup();
      }
    }

    // The flag goes up and the queue is taken in one swap.
    method TakePending() returns (functors: seq<F>)
      requires Abs().pc == Handling(false)
      modifies this
      ensures functors == old(pendingFunctors) && Abs() == Next(Next(old(Abs()), StartPending), Swap)
    {
      callingPendingFunctors := true;
      functors := pendingFunctors;
      pendingFunctors := [];
      rest := rest.(pc := Running(false), batch := functors, cut := |rest.queued|);
    }

    // The functors' own effects are steps of other methods; here they are only recorded.
    method RunBatch(functors: seq<F>) returns (ran: seq<F>, ghost actions: seq<Action<F>>)
      requires rest.pc == Running(false) && rest.batch == functors
      modifies this`rest
      ensures ran == functors && Reaches(old(Abs()), actions, Abs()) && forall a :: a in actions ==> a == RunNext
      ensures rest == old(rest).(batch := [], executed := old(rest).executed + ran)
    {
      hide Reaches;
      ghost var start := Abs();
      ran, actions := [], [];
      Stay(start);
      var i := 0;
      while i < |functors|
        invariant i <= |functors| && ran == functors[..i]
        invariant rest == old(rest).(batch := functors[i..], executed := old(rest).executed + ran)
        invariant Reaches(start, actions, Abs()) && forall a :: a in actions ==> a == RunNext
      {
        Extend(start, actions, Abs(), RunNext);
        assert functors[..i + 1] == functors[..i] + [functors[i]];
        assert functors[i..][1..] == functors[i + 1..];
        ran := ran + [functors[i]];
        rest := rest.(batch := functors[i + 1..], executed := rest.executed + [functors[i]]);
        actions := actions + [RunNext];
        i := i + 1;
      }
    }

    // Runs what was queued when it began, in order, and nothing else.
    method DoPendingFunctors() returns (ran: seq<F>, ghost actions: seq<Action<F>>)
      requires Abs().pc == Handling(false)
      modifies this
      ensures ran == old(pendingFunctors)
      ensures Reaches(old(Abs()), actions, Abs())
      ensures Abs() == old(Abs()).(pc := CheckQuit, calling := false, pending := [], batch := [], executed := old(Abs()).executed + ran, cut := |old(Abs()).queued|)
    {
      hide Reaches;
      ghost var start := Abs();
      var functors := TakePending();
      ghost var taken := Abs();
      ran, actions := RunBatch(functors);
      ghost var last := Abs();
      callingPendingFunctors := false;
      rest := rest.(pc := CheckQuit);
      Extend(taken, actions, last, EndPending);
      actions := actions + [EndPending];
      Precede(Next(start, StartPending), Swap, actions, Abs());
      Precede(start, StartPending, [Swap] + actions, Abs());
      actions := [StartPending] + ([Swap] + actions);
    }

    static lemma Stay(s: State<F>)
      ensures Reaches(s, [], s)
    {}

    static lemma Precede(s: State<F>, a: Action<F>, more: seq<Action<F>>, t: State<F>)
      requires Enabled(s, a) && Reaches(Next(s, a), more, t)
      ensures Reaches(s, [a] + more, t)
    {
      assert ([a] + more)[1..] == more;
    }

    static lemma {:induction false} Extend(s: State<F>, actions: seq<Action<F>>, t: State<F>, a: Action<F>)
      requires Reaches(s, actions, t) && Enabled(t, a)
      ensures Reaches(s, actions + [a], Next(t, a))
      decreases |actions|
    {
      hide Next, Enabled;
      if actions == [] {
        assert [a][1..] == [];
        assert actions + [a] == [a];
      } else {
        Extend(Next(s, actions[0]), actions[1..], t, a);
        assert (actions + [a])[1..] == actions[1..] + [a];
      }
    }
  }
}
