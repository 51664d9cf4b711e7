/**
 The output side of src/net/TcpConnection.cc: direct writes, the output buffer,
 write interest, and the deferred half-close. The kernel is an arbitrary answer to
 each write; it may take any prefix, block, or fail.
 */
module TcpOutput {

  datatype Option<T> = None | Some(value: T)

  datatype ConnState = Connecting | Connected | Disconnecting | Disconnected

  datatype WriteResult =
    | Wrote(n: nat)
    | WouldBlock
    | Fault        // EPIPE or ECONNRESET
    | OtherError

  // Callbacks put on the loop's queue; both kinds are taken to be registered.
  datatype Callback = WriteComplete | HighWater(size: nat)

  // A call of shutdownWrite: what the kernel had taken by then, and whether the connection was closed already.
  datatype Fin = Fin(taken: seq<char>, closed: bool)

  datatype Conn = Conn(
    state: ConnState,
    output: seq<char>,         // outputBuffer_
    writing: bool,             // the channel is interested in write events
    mark: nat,                 // highWaterMark_
    sending: Option<seq<char>>,  // send() has seen kConnected; sendInLoop is next on the loop thread
    deciding: nat,             // other threads in shutdown() that have seen kConnected
    shutdowns: nat,            // shutdownInLoop functors on the loop's queue
    closed: bool,              // handleClose has run
    taken: seq<char>,          // history: bytes the kernel took
    accepted: seq<char>,       // history: bytes given to send() while connected
    kept: seq<char>,           // history: those not dropped by a faulty write
    lost: nat,                 // history: how many were dropped
    fins: seq<Fin>,            // history: calls of shutdownWrite
    posted: seq<Callback>)     // history: callbacks queued

  function Fresh(mark: nat): Conn {
    Conn(Connecting, [], false, mark, None, 0, 0, false, [], [], [], 0, [], [])
  }

  // The kernel never takes more than it is offered.
  predicate Fits(w: WriteResult, len: nat) { w.Wrote? ==> w.n <= len }

  function Post(c: Conn, callback: Callback): Conn {
    c.(posted := c.posted + [callback])
  }

  // Put what the kernel did not take behind the bytes already waiting.
  function Enqueue(c: Conn, rest: seq<char>): Conn {
    var size := |c.output| + |rest|;
    var c1 := if size >= c.mark && |c.output| < c.mark then Post(c, HighWater(size)) else c;
    c1.(output := c.output + rest, writing := true)
  }

  function SendInLoop(c: Conn, data: seq<char>, w: WriteResult): Conn
    requires Fits(w, |data|)
  {
    var direct := !c.writing && c.output == [];
    var n := if direct && w.Wrote? then w.n else 0;
    if direct && w.Fault? then c.(lost := c.lost + |data|)
    else
      var c1 := c.(taken := c.taken + data[..n], kept := c.kept + data);
      if n < |data| then Enqueue(c1, data[n..])
      else if direct && w.Wrote? then Post(c1, WriteComplete)
      else c1
  }

  function ShutdownInLoop(c: Conn): Conn {
    if c.writing then c else c.(fins := c.fins + [Fin(c.taken, c.closed)])
  }

  function HandleWrite(c: Conn, w: WriteResult): Conn
    requires Fits(w, |c.output|)
  {
    if !c.writing || !w.Wrote? || w.n == 0 then c
    else
      var c1 := c.(taken := c.taken + c.output[..w.n], output := c.output[w.n..]);
      if c1.output != [] then c1
      else
        var c2 := Post(c1.(writing := false), WriteComplete);
        if c.state == Disconnecting then ShutdownInLoop(c2) else c2
  }

  function HandleClose(c: Conn): Conn {
    c.(state := Disconnected, writing := false, closed := true)
  }

  // send() as far as its test of the state.
  function Accept(c: Conn, data: seq<char>): Conn {
    if c.state == Connected then c.(sending := Some(data), accepted := c.accepted + data) else c
  }

  // The rest of send(), when the test succeeded.
  function FinishSend(c: Conn, w: WriteResult): Conn
    requires c.sending.Some? && Fits(w, |c.sending.value|)
  {
    SendInLoop(c.(sending := None), c.sending.value, w)
  }

  // send() called on the loop's own thread, as a whole.
  function Send(c: Conn, data: seq<char>, w: WriteResult): Conn
    requires Fits(w, |data|)
  {
    if c.state == Connected then FinishSend(Accept(c, data), w) else c
  }

  // shutdown() called on the loop's own thread.
  function Shutdown(c: Conn): Conn {
    if c.state == Connected then ShutdownInLoop(c.(state := Disconnecting)) else c
  }

  function ConnectDestroyed(c: Conn): Conn {
    if c.state == Connected then HandleClose(c) else c
  }

  // ---------------------------------------------------------------- all runs

  datatype Action =
    | Establish
    | SendTest(data: seq<char>)
    | SendRuns(w: WriteResult)
    | WriteReady(w: WriteResult)
    | ShutdownHere
    | ShutdownTest       // another thread: has seen kConnected
    | ShutdownSet        // and then sets kDisconnecting and queues shutdownInLoop
    | ShutdownRuns
    | Close
    | Destroy

  predicate Enabled(c: Conn, a: Action) {
    match a
    case SendTest(data) => c.sending.None?
    case SendRuns(w) => c.sending.Some? && Fits(w, |c.sending.value|)
    case ShutdownTest => c.state == Connected
    case ShutdownSet => c.deciding > 0
    case Establish => c.sending.None? && c.state == Connecting
    case WriteReady(w) => c.sending.None? && Fits(w, |c.output|)
    case ShutdownHere => c.sending.None?
    case ShutdownRuns => c.sending.None? && c.shutdowns > 0
    case Close => c.sending.None? && c.state != Connecting
    case Destroy => c.sending.None?
  }

  function Next(c: Conn, a: Action): Conn
    requires Enabled(c, a)
  {
    match a
    case Establish => c.(state := Connected)
    case SendTest(data) => Accept(c, data)
    case SendRuns(w) => FinishSend(c, w)
    case WriteReady(w) => HandleWrite(c, w)
    case ShutdownHere => Shutdown(c)
    case ShutdownTest => c.(deciding := c.deciding + 1)
    case ShutdownSet => c.(deciding := c.deciding - 1, state := Disconnecting, shutdowns := c.shutdowns + 1)
    case ShutdownRuns => ShutdownInLoop(c.(shutdowns := c.shutdowns - 1))
    case Close => HandleClose(c)
    case Destroy => ConnectDestroyed(c)
  }

  ghost predicate Reaches(c: Conn, actions: seq<Action>, t: Conn)
    decreases |actions|
  {
    if actions == [] then t == c
    else Enabled(c, actions[0]) && Reaches(Next(c, actions[0]), actions[1..], t)
  }

  function InFlight(c: Conn): seq<char> {
    if c.sending.Some? then c.sending.value else []
  }

  predicate Conserves(c: Conn) {
    && c.taken + c.output == c.kept
    && |c.kept| + c.lost + |InFlight(c)| == |c.accepted|
    && (c.lost == 0 ==> c.kept + InFlight(c) == c.accepted)
  }

  predicate InterestRight(c: Conn) {
    if c.closed then !c.writing && c.sending.None? && c.state !in {Connecting, Connected}
    else c.writing <==> c.output != []
  }

  predicate HalfCloseRight(c: Conn) {
    && (c.state == Connecting ==> c.sending.None? && c.deciding == 0)
    && (c.fins != [] ==> c.state !in {Connecting, Connected} && c.sending.None?)
    && (forall f :: f in c.fins ==> f.taken == c.taken && (f.closed || c.output == []) && (f.closed ==> c.closed))
    && (c.sending.Some? && c.state == Disconnecting ==> c.shutdowns > 0)
    && (c.shutdowns > 0 ==> c.state !in {Connecting, Connected})
    && (c.sending.Some? ==> c.state in {Connected, Disconnecting})
    // A half-close that was asked for is under way or done.
    && (c.state == Disconnecting && !c.closed && c.shutdowns == 0 && c.output == [] ==> c.fins != [])
  }

  predicate CallbacksRight(c: Conn) {
    && (c.output == [] && c.kept != [] ==> c.posted != [] && c.posted[|c.posted| - 1] == WriteComplete)
    && (|c.output| >= c.mark > 0 ==> c.posted != [] && c.posted[|c.posted| - 1].HighWater?)
  }

  predicate Inv(c: Conn) {
    Conserves(c) && InterestRight(c) && HalfCloseRight(c) && CallbacksRight(c)
  }

  // sendInLoop drops all of data on a faulty direct write, else puts all of it behind what is there.
  lemma SendRunsFields(c: Conn, data: seq<char>, w: WriteResult)
    requires Fits(w, |data|) && (!c.closed ==> (c.writing <==> c.output != []))
    ensures var t := SendInLoop(c, data, w);
      && t == c.(taken := t.taken, output := t.output, writing := t.writing, kept := t.kept, lost := t.lost, posted := t.posted)
      && ((t.kept == c.kept + data && t.lost == c.lost && t.taken + t.output == c.taken + c.output + data)
          || t == c.(lost := c.lost + |data|))
      && (!c.closed ==> (t.writing <==> t.output != []))
  {
    var direct := !c.writing && c.output == [];
    var n := if direct && w.Wrote? then w.n else 0;
    assert data[..n] + data[n..] == data;
    if direct {
      assert c.taken + data[..n] + data[n..] == c.taken + c.output + data;
    } else {
      assert c.taken + data[..0] + (c.output + data[0..]) == c.taken + c.output + data;
    }
  }

  lemma SendRunsCallbacks(c: Conn, data: seq<char>, w: WriteResult)
    requires Fits(w, |data|) && (c.writing <==> c.output != []) && CallbacksRight(c)
    requires c.taken + c.output == c.kept
    ensures CallbacksRight(SendInLoop(c.(sending := None), data, w))
  {}

  lemma SendRunsKeeps(c: Conn, w: WriteResult)
    requires Inv(c) && Enabled(c, SendRuns(w))
    ensures Inv(Next(c, SendRuns(w)))
  {
    hide SendInLoop, CallbacksRight;
    var c1, data := c.(sending := None), c.sending.value;
    SendRunsFields(c1, data, w);
    SendRunsCallbacks(c, data, w);
  }

  lemma WriteReadyKeeps(c: Conn, w: WriteResult)
    requires Inv(c) && Enabled(c, WriteReady(w))
    ensures Inv(Next(c, WriteReady(w)))
  {
    if w.Wrote? {
      assert c.taken + c.output == c.taken + c.output[..w.n] + c.output[w.n..];
    }
  }

  lemma NextKeeps(c: Conn, a: Action)
    requires Inv(c) && Enabled(c, a)
    ensures Inv(Next(c, a))
  {
    hide SendInLoop, HandleWrite;
    match a
    case SendRuns(w) => SendRunsKeeps(c, w);
    case WriteReady(w) => WriteReadyKeeps(c, w);
    case SendTest(data) => assert c.state == Connected && c.lost == 0 ==> c.kept + data == c.accepted + data;
    case _ =>
  }

  lemma {:induction false} ReachesKeeps(c: Conn, actions: seq<Action>, t: Conn)
    requires Inv(c) && Reaches(c, actions, t)
    ensures Inv(t)
    decreases |actions|
  {
    hide Inv, Next, Enabled;
    if actions != [] {
      NextKeeps(c, actions[0]);
      ReachesKeeps(Next(c, actions[0]), actions[1..], t);
    }
  }

  lemma ReachableInv(mark: nat, actions: seq<Action>, t: Conn)
    requires Reaches(Fresh(mark), actions, t)
    ensures Inv(t)
  {
    ReachesKeeps(Fresh(mark), actions, t);
  }

  // ---------------------------------------------------------------- what the kernel answered

  // sendInLoop calls write() itself only with nothing waiting before the new bytes.
  predicate Direct(c: Conn) { !c.writing && c.output == [] }

  // How many bytes write() reports taken in this step, and how many a broken connection costs.
  function Took(c: Conn, a: Action): nat {
    match a
    case SendRuns(w) => if Direct(c) && w.Wrote? then w.n else 0
    case WriteReady(w) => if c.writing && w.Wrote? then w.n else 0
    case _ => 0
  }

  function Cost(c: Conn, a: Action): nat {
    if a == SendRuns(Fault) && Direct(c) && c.sending.Some? then |c.sending.value| else 0
  }

  // The same over a run.
  ghost function AllTook(c: Conn, actions: seq<Action>): nat
    decreases |actions|
  {
    if actions == [] || !Enabled(c, actions[0]) then 0 else Took(c, actions[0]) + AllTook(Next(c, actions[0]), actions[1..])
  }

  ghost function AllCost(c: Conn, actions: seq<Action>): nat
    decreases |actions|
  {
    if actions == [] || !Enabled(c, actions[0]) then 0 else Cost(c, actions[0]) + AllCost(Next(c, actions[0]), actions[1..])
  }

  lemma StepCounts(c: Conn, a: Action)
    requires Enabled(c, a)
    ensures |Next(c, a).taken| == |c.taken| + Took(c, a) && Next(c, a).lost == c.lost + Cost(c, a)
  {}

  // The kernel has exactly the bytes it said it took, and exactly those are lost that met a
  // broken connection with nothing waiting before them.
  lemma {:induction false} KernelAccounts(c: Conn, actions: seq<Action>, t: Conn)
    requires Reaches(c, actions, t)
    ensures |t.taken| == |c.taken| + AllTook(c, actions) && t.lost == c.lost + AllCost(c, actions)
    decreases |actions|
  {
    hide Next, Enabled, Took, Cost;
    if actions != [] {
      StepCounts(c, actions[0]);
      KernelAccounts(Next(c, actions[0]), actions[1..], t);
    }
  }

  // Some send met a broken connection so.
  ghost predicate Faulted(c: Conn, actions: seq<Action>)
    decreases |actions|
  {
    actions != [] && Enabled(c, actions[0]) &&
    ((actions[0] == SendRuns(Fault) && Direct(c) && c.sending.value != []) || Faulted(Next(c, actions[0]), actions[1..]))
  }

  lemma {:induction false} CostIff(c: Conn, actions: seq<Action>)
    ensures AllCost(c, actions) > 0 <==> Faulted(c, actions)
    decreases |actions|
  {
    hide Next;
    if actions != [] && Enabled(c, actions[0]) { CostIff(Next(c, actions[0]), actions[1..]); }
  }

  // So in every run bytes are lost if and only if some send of bytes met one; what was
  // accepted is otherwise with the kernel, waiting, or in flight, in order.
  lemma LostIff(mark: nat, actions: seq<Action>, t: Conn)
    requires Reaches(Fresh(mark), actions, t)
    ensures t.lost > 0 <==> Faulted(Fresh(mark), actions)
    ensures t.taken + t.output + InFlight(t) == t.accepted <==> !Faulted(Fresh(mark), actions)
    ensures |t.taken| == AllTook(Fresh(mark), actions)
  {
    hide Reaches;
    KernelAccounts(Fresh(mark), actions, t);
    CostIff(Fresh(mark), actions);
    Conservation(mark, actions, t);
  }

  // The callbacks a step queues: a warning with the new size when the waiting bytes reach the
  // mark from below, and word of completion when a write leaves nothing waiting.
  lemma CallbacksExactly(c: Conn, a: Action)
    requires Inv(c) && Enabled(c, a)
    ensures var t := Next(c, a);
      t.posted == c.posted +
        if |c.output| < c.mark <= |t.output| then [HighWater(|t.output|)]
        else if t.output == [] && ((a.SendRuns? && Direct(c) && a.w.Wrote?) || (a.WriteReady? && c.output != []))
        then [WriteComplete]
        else []
  {
    assert c.posted + [] == c.posted;
  }

  // A connection that closes, or is destroyed while connected, accepts and watches nothing more.
  lemma CloseSilences(c: Conn, a: Action, data: seq<char>)
    requires Enabled(c, a) && (a.Close? || (a.Destroy? && c.state == Connected))
    ensures var t := Next(c, a);
      t.state == Disconnected && t.closed && !t.writing && Accept(t, data) == t && t.output == c.output && t.taken == c.taken
  {}

  // Nothing is reordered, duplicated or invented: what the kernel took and what waits
  // are the accepted bytes in order, and exactly those unless a write fault dropped some.
  lemma Conservation(mark: nat, actions: seq<Action>, t: Conn)
    requires Reaches(Fresh(mark), actions, t)
    ensures t.taken + t.output == t.kept
    ensures t.taken + t.output + InFlight(t) == t.accepted <==> t.lost == 0
  {
    ReachableInv(mark, actions, t);
  }

  // Until the connection closes, the loop watches for write space exactly when bytes wait.
  lemma WriteInterest(mark: nat, actions: seq<Action>, t: Conn)
    requires Reaches(Fresh(mark), actions, t) && !t.closed
    ensures t.writing <==> t.output != []
  {
    ReachableInv(mark, actions, t);
  }

  // shutdownWrite on an open connection comes after the last byte: the kernel had all
  // that is ever kept, and nothing is accepted afterwards.
  lemma HalfCloseComes(mark: nat, actions: seq<Action>, t: Conn, f: Fin)
    requires Reaches(Fresh(mark), actions, t) && f in t.fins && !f.closed
    ensures f.taken == t.taken == t.kept && t.output == []
    ensures t.lost == 0 ==> f.taken == t.accepted
    ensures forall data :: Accept(t, data) == t
  {
    ReachableInv(mark, actions, t);
  }

  // A half-close asked for by another thread can be overtaken by a close; whatever waits is
  // then cut off.
  lemma OvertakenHalfClose(mark: nat, before: seq<Action>, c: Conn) returns (after: seq<Action>, t: Conn)
    requires Reaches(Fresh(mark), before, c)
    requires c.state == Connected && c.sending.None? && c.output != []
    ensures Reaches(Fresh(mark), before + after, t)
    ensures Fin(t.taken, true) in t.fins && t.taken != t.kept
  {
    hide Inv, Reaches;
    ReachableInv(mark, before, c);
    var c1 := Next(c, ShutdownTest);
    var c2 := Next(c1, ShutdownSet);
    var c3 := Next(c2, Close);
    t := Next(c3, ShutdownRuns);
    Nothing(t);
    var a3 := [ShutdownRuns] + [];
    OneMore(c3, ShutdownRuns, [], t);
    var a2 := [Close] + a3;
    OneMore(c2, Close, a3, t);
    var a1 := [ShutdownSet] + a2;
    OneMore(c1, ShutdownSet, a2, t);
    after := [ShutdownTest] + a1;
    OneMore(c, ShutdownTest, a1, t);
    Onward(Fresh(mark), before, c, after, t);
    InvConserves(c);
    assert t.fins[|t.fins| - 1] == Fin(t.taken, true);
  }

  lemma InvConserves(c: Conn)
    requires Inv(c)
    ensures c.taken + c.output == c.kept
  {}

  // Such a state is three steps away, whatever is sent.
  lemma StalledSend(mark: nat, data: seq<char>) returns (actions: seq<Action>, c: Conn)
    requires data != []
    ensures Reaches(Fresh(mark), actions, c)
    ensures c.state == Connected && c.sending.None? && c.output == data == c.accepted
  {
    hide Reaches;
    var c1 := Next(Fresh(mark), Establish);
    var c2 := Next(c1, SendTest(data));
    c := Next(c2, SendRuns(WouldBlock));
    Nothing(c);
    OneMore(c2, SendRuns(WouldBlock), [], c);
    var a2 := [SendTest(data)] + ([SendRuns(WouldBlock)] + []);
    OneMore(c1, SendTest(data), [SendRuns(WouldBlock)] + [], c);
    actions := [Establish] + a2;
    OneMore(Fresh(mark), Establish, a2, c);
    assert data[0..] == data;
  }

  // Which calls of shutdownWrite cut bytes off, exactly: those after which bytes wait; and
  // they come only after the connection was closed.
  lemma CutOffIff(mark: nat, actions: seq<Action>, t: Conn, f: Fin)
    requires Reaches(Fresh(mark), actions, t) && f in t.fins
    ensures f.taken == t.kept <==> t.output == []
    ensures t.output != [] ==> f.closed && t.closed
  {
    ReachableInv(mark, actions, t);
    if f.taken == t.kept {
      assert |t.taken + t.output| == |t.kept|;
    }
  }

  // Without other threads in shutdown(), nothing is ever left to overtake.
  predicate OwnThread(c: Conn) {
    c.deciding == 0 && c.shutdowns == 0 && forall f :: f in c.fins ==> !f.closed
  }

  lemma OwnThreadKeeps(c: Conn, a: Action)
    requires Inv(c) && OwnThread(c) && Enabled(c, a) && a != ShutdownTest
    ensures OwnThread(Next(c, a))
  {
    hide Conserves, CallbacksRight;
    if a.SendRuns? {
      SendRunsFields(c.(sending := None), c.sending.value, a.w);
    }
  }

  lemma {:induction false} OwnThreadReaches(c: Conn, actions: seq<Action>, t: Conn)
    requires Inv(c) && OwnThread(c) && Reaches(c, actions, t) && ShutdownTest !in actions
    ensures OwnThread(t)
    decreases |actions|
  {
    hide Inv, Next, Enabled, OwnThread;
    if actions != [] {
      NextKeeps(c, actions[0]);
      OwnThreadKeeps(c, actions[0]);
      OwnThreadReaches(Next(c, actions[0]), actions[1..], t);
    }
  }

  // A connection shut down only from its own loop, as the server does it, never cuts bytes off.
  lemma OwnThreadNeverCuts(mark: nat, actions: seq<Action>, t: Conn, f: Fin)
    requires Reaches(Fresh(mark), actions, t) && ShutdownTest !in actions && f in t.fins
    ensures f.taken == t.kept && !f.closed
  {
    hide Reaches;
    OwnThreadReaches(Fresh(mark), actions, t);
    HalfCloseComes(mark, actions, t, f);
  }

  // Every call of shutdownWrite finds everything handed over; others: shutdown() may also be
  // called by other threads.
  ghost predicate NeverCuts(mark: nat, others: bool) {
    forall actions: seq<Action>, t: Conn, f: Fin ::
      Reaches(Fresh(mark), actions, t) && (others || ShutdownTest !in actions) && f in t.fins ==> f.taken == t.kept
  }

  // That holds exactly if shutdown() is left to the loop's own thread.
  lemma NeverCutsIff(mark: nat, others: bool)
    ensures NeverCuts(mark, others) <==> !others
  {
    hide Reaches;
    if others {
      var before, c := StalledSend(mark, "x");
      var after, t := OvertakenHalfClose(mark, before, c);
      assert Fin(t.taken, true) in t.fins;
    } else {
      forall actions: seq<Action>, t: Conn, f: Fin | Reaches(Fresh(mark), actions, t) && ShutdownTest !in actions && f in t.fins
        ensures f.taken == t.kept
      {
        OwnThreadNeverCuts(mark, actions, t, f);
      }
    }
  }

  lemma {:induction false} Onward(a: Conn, first: seq<Action>, b: Conn, second: seq<Action>, c: Conn)
    requires Reaches(a, first, b) && Reaches(b, second, c)
    ensures Reaches(a, first + second, c)
    decreases |first|
  {
    hide Next, Enabled;
    if first == [] {
      assert first + second == second;
    } else {
      Onward(Next(a, first[0]), first[1..], b, second, c);
      assert (first + second)[1..] == first[1..] + second;
    }
  }

  lemma Nothing(c: Conn)
    ensures Reaches(c, [], c)
  {}

  lemma OneMore(c: Conn, a: Action, more: seq<Action>, t: Conn)
    requires Enabled(c, a) && Reaches(Next(c, a), more, t)
    ensures Reaches(c, [a] + more, t)
  {
    assert ([a] + more)[1..] == more;
  }

  // The half-close is not forgotten: on an open connection that is shutting down, as
  // many write events as it takes for the kernel to drain the buffer end in shutdownWrite.
  lemma {:induction false} HalfCloseHappens(c: Conn, takes: nat -> nat) returns (actions: seq<Action>, t: Conn)
    requires Inv(c) && c.state == Disconnecting && !c.closed && c.sending.None? && c.shutdowns == 0
    ensures Reaches(c, actions, t) && (forall a :: a in actions ==> a.WriteReady?)
    ensures t.fins != [] && t.taken == c.taken + c.output && t.accepted == c.accepted
    decreases |c.output|
  {
    if c.output == [] {
      return [], c;
    }
    // The kernel takes any number of bytes from one to all of them.
    var n := 1 + takes(|c.output|) % |c.output|;
    var a := WriteReady(Wrote(n));
    NextKeeps(c, a);
    assert c.output == c.output[..n] + c.output[n..];
    var more, last := HalfCloseHappens(Next(c, a), takes);
    OneMore(c, a, more, last);
    return [a] + more, last;
  }

  // Whoever watches the callbacks knows the queue: after a write-complete everything kept
  // is out, and while the queue is over the mark the last word was a high-water warning.
  lemma CallbacksTellTheTruth(mark: nat, actions: seq<Action>, t: Conn)
    requires Reaches(Fresh(mark), actions, t)
    ensures t.taken == t.kept && t.kept != [] ==> t.posted != [] && t.posted[|t.posted| - 1] == WriteComplete
    ensures |t.output| >= t.mark > 0 ==> t.posted != [] && t.posted[|t.posted| - 1].HighWater?
  {
    ReachableInv(mark, actions, t);
  }
}

// The object itself: each method does to its fields what TcpOutput says.
module TcpConnection {
  import opened ByteBuffer
  import opened TcpOutput

  class TcpConnection {
    var state: ConnState
    const outputBuffer: Buffer
    var writing: bool
    const highWaterMark: nat
    ghost var history: Conn  // what is not a field of the object

    ghost predicate Valid()
      reads this, outputBuffer
    {
      outputBuffer.Valid() && history.sending.None?
    }

    ghost function Abs(): Conn
      requires Valid()
      reads this, outputBuffer, outputBuffer.buffer
    {
      history.(state := state, output := outputBuffer.Contents(), writing := writing, mark := highWaterMark)
    }

    constructor (mark: nat)
      ensures Valid() && Abs() == Fresh(mark) && fresh(outputBuffer) && fresh(outputBuffer.buffer)
    {
      state := Connecting;
      var b := new Buffer();
      outputBuffer := b;
      writing := false;
      highWaterMark := mark;
      history := Fresh(mark);
    }

    method ConnectEstablished()
      requires Valid()
      modifies this
      ensures Valid() && Abs() == old(Abs()).(state := Connected)
    {
      state := Connected;
    }

    method Send(data: seq<char>, w: WriteResult)
      requires Valid() && Fits(w, |data|)
      modifies this, outputBuffer, outputBuffer.buffer
      ensures Valid() && Abs() == TcpOutput.Send(old(Abs()), data, w)
      ensures outputBuffer.buffer == old(outputBuffer.buffer) || fresh(outputBuffer.buffer)
    {
      if state == Connected {
        history := history.(accepted := history.accepted + data);
        SendInLoop(data, w);
      }
    }

    method SendInLoop(data: seq<char>, w: WriteResult)
      requires Valid() && Fits(w, |data|)
      modifies this, outputBuffer, outputBuffer.buffer
      ensures Valid() && Abs() == TcpOutput.SendInLoop(old(Abs()), data, w)
      ensures outputBuffer.buffer == old(outputBuffer.buffer) || fresh(outputBuffer.buffer)
    {
      hide TcpOutput.Enqueue;
      var nwrote := 0;
      var remaining := |data|;
      var faultError := false;
      if !writing && outputBuffer.ReadableBytes() == 0 {
        if w.Wrote? {
          nwrote := w.n;
          remaining := |data| - nwrote;
          history := history.(taken := history.taken + data[..nwrote]);
          if remaining == 0 {
            history := Post(history, WriteComplete);
          }
        } else {
          faultError := w.Fault?;
        }
      }
      history := if faultError then history.(lost := history.lost + |data|) else history.(kept := history.kept + data);
      assert history.taken + data[..0] == history.taken && data[0..] == data;
      if !faultError && remaining > 0 {
        Enqueue(data[nwrote..]);
      }
    }

    // The tail of sendInLoop: keep what is left for handleWrite.
    method Enqueue(rest: seq<char>)
      requires Valid()
      modifies this, outputBuffer, outputBuffer.buffer
      ensures Valid() && Abs() == TcpOutput.Enqueue(old(Abs()), rest)
      ensures outputBuffer.buffer == old(outputBuffer.buffer) || fresh(outputBuffer.buffer)
    {
      var oldLen := outputBuffer.ReadableBytes();
      if oldLen + |rest| >= highWaterMark && oldLen < highWaterMark {
        history := Post(history, HighWater(oldLen + |rest|));
      }
      outputBuffer.Append(rest);
      writing := true;
    }

    method Shutdown()
      requires Valid()
      modifies this
      ensures Valid() && Abs() == TcpOutput.Shutdown(old(Abs()))
    {
      if state == Connected {
        state := Disconnecting;
        ShutdownInLoop();
      }
    }

    method ShutdownInLoop()
      requires Valid()
      modifies this`history
      ensures Valid() && Abs() == TcpOutput.ShutdownInLoop(old(Abs()))
    {
      if !writing {
        history := history.(fins := history.fins + [Fin(history.taken, history.closed)]);
      }
    }

    method HandleWrite(w: WriteResult)
      requires Valid() && Fits(w, |Abs().output|)
      modifies this, outputBuffer
      ensures Valid() && Abs() == TcpOutput.HandleWrite(old(Abs()), w)
    {
      if writing && w.Wrote? && w.n > 0 {
        history := history.(taken := history.taken + outputBuffer.Contents()[..w.n]);
        outputBuffer.Retrieve(w.n);
        if outputBuffer.ReadableBytes() == 0 {
          writing := false;
          history := Post(history, WriteComplete);
          if state == Disconnecting {
            ShutdownInLoop();
          }
        }
      }
    }

    method HandleClose()
      requires Valid()
      modifies this
      ensures Valid() && Abs() == TcpOutput.HandleClose(old(Abs()))
    {
      state := Disconnected;
      writing := false;
      history := history.(closed := true);
    }

    method ConnectDestroyed()
      requires Valid()
      modifies this
      ensures Valid() && Abs() == TcpOutput.ConnectDestroyed(old(Abs()))
    {
      if state == Connected {
        HandleClose();
      }
    }
  }
}
