/**
 The double-buffered logger of log/AsyncLogging.cc: front-end threads append under a
 mutex, one back-end thread swaps full buffers out, writes them and recycles two.
 The values a run goes through, at the granularity of the critical sections.
 */
module AsyncLog {
  import opened Strings

  const LARGE := 4000 * 1000

  datatype Option<T> = None | Some(value: T)

  // A buffer's content; None is a moved-from pointer.
  type Ptr = Option<string>

  datatype Pc =
    | Top         // about to test running_
    | Waiting     // about to take the mutex, possibly after waiting
    | Writing(next: nat)  // buffersToWrite[next] is written next
    | Finished

  datatype Log = Log(
    current: Ptr,
    nextBuffer: Ptr,
    buffers: seq<string>,
    spare1: Ptr,          // newbuffer1
    spare2: Ptr,          // newbuffer2
    toWrite: seq<string>,
    pc: Pc,
    running: bool,
    output: string,       // what LogFile has been given
    lines: seq<string>,   // history: every line handed to append
    cut: nat)             // history: how many of them had been when the back end last swapped

  function Start(): Log {
    Log(Some(""), Some(""), [], Some(""), Some(""), [], Top, true, "", [], 0)
  }

  // FixedBuffer::append: a line that does not fit is ignored.
  function Put(content: string, line: string): string {
    if LARGE - |content| > |line| then content + line else content
  }

  function Append(g: Log, line: string): Log
    requires g.current.Some? && |g.current.value| <= LARGE
  {
    var g1 := g.(lines := g.lines + [line]);
    if LARGE - |g.current.value| > |line| then g1.(current := Some(Put(g.current.value, line)))
    else
      g1.(buffers := g.buffers + [g.current.value],
          current := Some(Put(if g.nextBuffer.Some? then g.nextBuffer.value else "", line)),
          nextBuffer := None)
  }

  // The critical section of threadFunc.
  function Swap(g: Log): Log
    requires g.current.Some?
  {
    g.(buffers := g.toWrite, toWrite := g.buffers + [g.current.value],
       current := g.spare1, spare1 := None,
       nextBuffer := if g.nextBuffer.Some? then g.nextBuffer else g.spare2,
       spare2 := if g.nextBuffer.Some? then g.spare2 else None,
       pc := Writing(0), cut := |g.lines|)
  }

  function WriteOne(g: Log): Log
    requires g.pc.Writing? && g.pc.next < |g.toWrite|
  {
    g.(output := g.output + g.toWrite[g.pc.next], pc := Writing(g.pc.next + 1))
  }

  // How many buffers the recycling pops.
  function Needed(g: Log): nat {
    (if g.spare1.None? then 1 else 0) + if g.spare2.None? then 1 else 0
  }

  // resize(2), refill the spares from the back, clear. back() needs a vector that is not empty.
  function Recycle(g: Log): Log
    requires Needed(g) <= |g.toWrite|
  {
    g.(spare1 := if g.spare1.None? then Some("") else g.spare1,
       spare2 := if g.spare2.None? then Some("") else g.spare2,
       toWrite := [], pc := Top)
  }

  // ---------------------------------------------------------------- all runs

  datatype Action = Line(line: string) | Stop | TestRunning | TakeAll | WriteNext | Reuse

  predicate Enabled(g: Log, a: Action) {
    match a
    case Line(line) => true
    case Stop => true
    case TestRunning => g.pc.Top?
    case TakeAll => g.pc.Waiting?
    case WriteNext => g.pc.Writing? && g.pc.next < |g.toWrite|
    case Reuse => g.pc.Writing? && g.pc.next >= |g.toWrite|
  }

  // The dereferences that the code performs unchecked.
  predicate Safe(g: Log, a: Action) {
    match a
    case Line(line) => g.current.Some? && |g.current.value| <= LARGE
    case TakeAll => g.current.Some?
    case Reuse => Needed(g) <= |g.toWrite|
    case _ => true
  }

  function Next(g: Log, a: Action): Log
    requires Enabled(g, a) && Safe(g, a)
  {
    match a
    case Line(line) => Append(g, line)
    case Stop => g.(running := false)
    case TestRunning => g.(pc := if g.running then Waiting else Finished)
    case TakeAll => Swap(g)
    case WriteNext => WriteOne(g)
    case Reuse => Recycle(g)
  }

  ghost predicate Reaches(g: Log, actions: seq<Action>, t: Log)
    decreases |actions|
  {
    if actions == [] then t == g
    else Enabled(g, actions[0]) && Safe(g, actions[0]) && Reaches(Next(g, actions[0]), actions[1..], t)
  }

  // ---------------------------------------------------------------- the invariant

  // The lines that fit into a buffer, joined.
  function Kept(lines: seq<string>): string {
    if lines == [] then ""
    else Kept(lines[..|lines| - 1]) + if |lines[|lines| - 1]| < LARGE then lines[|lines| - 1] else ""
  }

  // Taken from the front end and not written yet.
  function InHand(g: Log): string {
    if g.pc.Writing? && g.pc.next <= |g.toWrite| then Flatten(g.toWrite[g.pc.next..]) else ""
  }

  predicate Empty(p: Ptr) { p.Some? ==> p.value == "" }

  predicate PointersRight(g: Log) {
    && g.current.Some? && |g.current.value| < LARGE
    && Empty(g.nextBuffer) && Empty(g.spare1) && Empty(g.spare2)
    && (g.nextBuffer.None? ==> g.buffers != [])
    && if g.pc.Writing? then g.pc.next <= |g.toWrite| && Needed(g) <= |g.toWrite| && |g.toWrite| > 0
       else g.spare1.Some? && g.spare2.Some? && g.toWrite == []
  }

  // All the text the logger holds or has written.
  function Held(g: Log): string
    requires g.current.Some?
  {
    g.output + InHand(g) + Flatten(g.buffers) + g.current.value
  }

  predicate Inv(g: Log) {
    && PointersRight(g)
    && Held(g) == Kept(g.lines)
    && g.cut <= |g.lines| && g.output + InHand(g) == Kept(g.lines[..g.cut])
  }

  lemma LineKeeps(g: Log, line: string)
    requires Inv(g)
    ensures Inv(Append(g, line))
  {
    hide Kept;
    var t := Append(g, line);
    assert Kept(t.lines) == Kept(g.lines) + if |line| < LARGE then line else "" by { KeptSnoc(g.lines, line); }
    FlattenSnoc(g.buffers, g.current.value);
    assert t.lines[..g.cut] == g.lines[..g.cut];
    if LARGE - |g.current.value| > |line| {
      Regroup(g.output + InHand(g) + Flatten(g.buffers), g.current.value, line);
    } else {
      Regroup(g.output + InHand(g), Flatten(g.buffers), g.current.value);
    }
  }

  lemma KeptSnoc(lines: seq<string>, line: string)
    ensures Kept(lines + [line]) == Kept(lines) + if |line| < LARGE then line else ""
  {
    assert (lines + [line])[..|lines|] == lines;
  }

  lemma SwapKeeps(g: Log)
    requires Inv(g) && g.pc.Waiting?
    ensures Inv(Swap(g))
  {
    hide Kept;
    var t := Swap(g);
    assert t.toWrite[0..] == t.toWrite && g.toWrite == [];
    assert t.lines[..t.cut] == g.lines;
    FlattenSnoc(g.buffers, g.current.value);
    Regroup(g.output, Flatten(g.buffers), g.current.value);
  }

  lemma WriteKeeps(g: Log)
    requires Inv(g) && Enabled(g, WriteNext)
    ensures Inv(WriteOne(g))
  {
    hide Kept;
    var n := g.pc.next;
    FlattenCons(g.toWrite[n], g.toWrite[n + 1..]);
    assert g.toWrite[n..] == [g.toWrite[n]] + g.toWrite[n + 1..];
    Regroup(g.output, g.toWrite[n], Flatten(g.toWrite[n + 1..]));
  }

  // Every reachable step dereferences what is there, and keeps the accounts.
  lemma NextKeeps(g: Log, a: Action)
    requires Inv(g) && Enabled(g, a)
    ensures Safe(g, a) && Inv(Next(g, a))
  {
    hide Kept;
    match a
    case Line(line) => LineKeeps(g, line);
    case TakeAll => SwapKeeps(g);
    case WriteNext => WriteKeeps(g);
    case Reuse => assert g.toWrite[g.pc.next..] == [];
    case _ =>
  }

  lemma {:induction false} ReachesKeeps(g: Log, actions: seq<Action>, t: Log)
    requires Inv(g) && Reaches(g, actions, t)
    ensures Inv(t)
    decreases |actions|
  {
    hide Inv, Next, Enabled, Safe;
    if actions != [] {
      NextKeeps(g, actions[0]);
      ReachesKeeps(Next(g, actions[0]), actions[1..], t);
    }
  }

  lemma ReachableInv(actions: seq<Action>, t: Log)
    requires Reaches(Start(), actions, t)
    ensures Inv(t)
  {
    ReachesKeeps(Start(), actions, t);
  }

  // ---------------------------------------------------------------- the promises

  // In every interleaving: what is written, in the back end's hands, queued and current is
  // every line that fits a buffer, whole and in the order it was logged.
  lemma LogConservation(actions: seq<Action>, t: Log)
    requires Reaches(Start(), actions, t)
    ensures t.current.Some?
    ensures t.output + InHand(t) + Flatten(t.buffers) + t.current.value == Kept(t.lines)
    ensures t.output <= Kept(t.lines)
  {
    hide Kept;
    ReachableInv(actions, t);
  }

  // Nothing is dereferenced or popped that is not there.
  lemma AlwaysSafe(actions: seq<Action>, t: Log, a: Action)
    requires Reaches(Start(), actions, t) && Enabled(t, a)
    ensures Safe(t, a)
  {
    ReachableInv(actions, t);
    NextKeeps(t, a);
  }

  // Logging a line adds it whole, or drops it whole: it is kept exactly when it is shorter
  // than a buffer (or there is nothing to keep).
  lemma AppendKeepsIff(g: Log, line: string)
    requires Inv(g)
    ensures Append(g, line).current.Some?
    ensures Held(Append(g, line)) == Held(g) + line <==> line == "" || |line| < LARGE
    ensures line != "" && |line| >= LARGE ==> Held(Append(g, line)) == Held(g)
  {
    hide Kept;
    LineKeeps(g, line);
    KeptSnoc(g.lines, line);
  }

  // So it is in every state of every run.
  lemma DroppedIff(actions: seq<Action>, t: Log, line: string)
    requires Reaches(Start(), actions, t)
    ensures Safe(t, Line(line)) && t.current.Some? && Next(t, Line(line)).current.Some?
    ensures Held(Next(t, Line(line))) == Held(t) + line <==> line == "" || |line| < LARGE
  {
    hide Kept, Held, Inv, Append;
    ReachableInv(actions, t);
    NextKeeps(t, Line(line));
    InvPointers(t);
    AppendKeepsIff(t, line);
  }

  lemma InvPointers(g: Log)
    requires Inv(g)
    ensures g.current.Some? && |g.current.value| < LARGE
  {}

  // Kept of a longer list only grows, and by nothing exactly if every line added is empty or too long.
  lemma {:induction false} KeptMore(lines: seq<string>, more: seq<string>)
    ensures Kept(lines) <= Kept(lines + more)
    ensures Kept(lines + more) == Kept(lines) <==> forall i :: 0 <= i < |more| ==> more[i] == "" || |more[i]| >= LARGE
    decreases |more|
  {
    if more == [] {
      assert lines + more == lines;
    } else {
      var n := |more| - 1;
      KeptMore(lines, more[..n]);
      assert lines + more == (lines + more[..n]) + [more[n]];
      KeptSnoc(lines + more[..n], more[n]);
      assert forall i :: 0 <= i < n ==> more[..n][i] == more[i];
    }
  }

  // When the back end has returned, the file holds exactly what was logged before its last
  // swap. Nothing is lost exactly if no line that could have been kept came after it.
  lemma LostAtStop(actions: seq<Action>, t: Log)
    requires Reaches(Start(), actions, t) && t.pc.Finished?
    ensures t.cut <= |t.lines| && t.output == Kept(t.lines[..t.cut])
    ensures t.output == Kept(t.lines) <==> forall i :: t.cut <= i < |t.lines| ==> t.lines[i] == "" || |t.lines[i]| >= LARGE
  {
    hide Kept, Held;
    ReachableInv(actions, t);
    assert t.output + InHand(t) == t.output;
    var more := t.lines[t.cut..];
    KeptMore(t.lines[..t.cut], more);
    assert t.lines[..t.cut] + more == t.lines;
    assert forall i :: t.cut <= i < |t.lines| ==> t.lines[i] == more[i - t.cut];
    assert forall i :: 0 <= i < |more| ==> more[i] == t.lines[t.cut + i];
  }

  // A stop can come before any swap; then whatever is logged is lost.
  lemma StopLoses(line: string) returns (t: Log)
    requires line != "" && |line| < LARGE
    ensures Reaches(Start(), [Stop, TestRunning, Line(line)], t)
    ensures t.pc.Finished? && t.output == "" && Kept(t.lines) == line
  {
    hide Reaches;
    var s1 := Next(Start(), Stop);
    var s2 := Next(s1, TestRunning);
    t := Next(s2, Line(line));
    NoMore(t);
    OneMore(s2, Line(line), [], t);
    OneMore(s1, TestRunning, [Line(line)] + [], t);
    OneMore(Start(), Stop, [TestRunning] + ([Line(line)] + []), t);
    assert [Stop] + ([TestRunning] + ([Line(line)] + [])) == [Stop, TestRunning, Line(line)];
    KeptSnoc([], line);
    assert [] + [line] == [line];
  }

  lemma NoMore(g: Log)
    ensures Reaches(g, [], g)
  {}

  lemma OneMore(g: Log, a: Action, more: seq<Action>, t: Log)
    requires Enabled(g, a) && Safe(g, a) && Reaches(Next(g, a), more, t)
    ensures Reaches(g, [a] + more, t)
  {
    assert ([a] + more)[1..] == more;
  }

  // One round of the back end writes everything logged before its swap, whatever is logged meanwhile.
  lemma RoundWritesAll(g: Log)
    requires Inv(g) && g.pc.Waiting?
    ensures var t := Swap(g); t.output + InHand(t) == Kept(g.lines) && t.buffers == [] && t.current == Some("")
  {
    hide Kept;
    SwapKeeps(g);
  }
}

// The objects. A unique_ptr is the only way to its buffer, so the logger's fields hold
// the content each pointer owns, and None where a pointer was moved from.
module AsyncLogging {
  import opened Strings
  import opened AsyncLog

  class FixedBuffer {
    const data: array<char>
    var size: nat

    ghost predicate Valid()
      reads this
    {
      data.Length == LARGE && size <= LARGE
    }

    function Contents(): (s: string)
      requires Valid()
      reads this, data
      ensures |s| == size
    {
      data[..size]
    }

    constructor ()
      ensures Valid() && Contents() == "" && fresh(data)
    {
      data := new char[LARGE](_ => '\0');
      size := 0;
    }

    function Avail(): nat
      requires Valid()
      reads this
    {
      LARGE - size
    }

    method Append(buf: string)
      requires Valid()
      modifies this, data
      ensures Valid() && Contents() == Put(old(Contents()), buf)
    {
      if Avail() > |buf| {
        forall i | 0 <= i < |buf| {
          data[size + i] := buf[i];
        }
        size := size + |buf|;
      }
    }

    method Reset()
      requires Valid()
      modifies this
      ensures Valid() && Contents() == ""
    {
      size := 0;
    }
  }

  class AsyncLogging {
    var currentBuffer: Ptr
    var nextBuffer: Ptr
    var buffers: seq<string>
    var running: bool
    // The back end's own variables.
    var newbuffer1: Ptr
    var newbuffer2: Ptr
    var buffersToWrite: seq<string>
    var output: string
    ghost var pc: Pc
    ghost var lines: seq<string>
    ghost var cut: nat

    ghost function Abs(): Log
      reads this
    {
      Log(currentBuffer, nextBuffer, buffers, newbuffer1, newbuffer2, buffersToWrite, pc, running, output, lines, cut)
    }

    constructor ()
      ensures Abs() == AsyncLog.Start() && Inv(Abs())
    {
      currentBuffer, nextBuffer, newbuffer1, newbuffer2 := Some(""), Some(""), Some(""), Some("");
      buffers, buffersToWrite, output, running := [], [], "", true;
      pc, lines, cut := Top, [], 0;
    }

    // Front end, under the mutex.
    method Append(line: string)
      requires Inv(Abs())
      modifies this
      ensures Abs() == AsyncLog.Append(old(Abs()), line) && Inv(Abs())
    {
      hide Kept, Flatten;
      LineKeeps(Abs(), line);
      lines := lines + [line];
      if LARGE - |currentBuffer.value| > |line| {
        currentBuffer := Some(Put(currentBuffer.value, line));
      } else {
        buffers := buffers + [currentBuffer.value];
        currentBuffer := None;
        if nextBuffer.Some? {
          currentBuffer := nextBuffer;
          nextBuffer := None;
        } else {
          currentBuffer := Some("");
        }
        currentBuffer := Some(Put(currentBuffer.value, line));
      }
    }

    // Back end, under the mutex.
    method TakeAll()
      requires Inv(Abs()) && pc.Waiting?
      modifies this
      ensures Abs() == Swap(old(Abs())) && Inv(Abs())
    {
      hide Kept, Flatten;
      SwapKeeps(Abs());
      buffers := buffers + [currentBuffer.value];
      currentBuffer := newbuffer1;
      newbuffer1 := None;
      if nextBuffer.None? {
        nextBuffer := newbuffer2;
        newbuffer2 := None;
      }
      buffersToWrite, buffers := buffers, buffersToWrite;
      pc, cut := Writing(0), |lines|;
    }

    // Back end, outside the mutex: the loop over the buffers taken.
    method WriteAll()
      requires Inv(Abs()) && pc == Writing(0)
      modifies this`output, this`pc
      ensures Abs() == old(Abs()).(output := old(output) + Flatten(buffersToWrite), pc := Writing(|buffersToWrite|))
      ensures Inv(Abs())
    {
      hide Kept, Flatten;
      ghost var was := output;
      var i := 0;
      assert buffersToWrite[0..] == buffersToWrite;
      while i < |buffersToWrite|
        invariant i <= |buffersToWrite| && pc == Writing(i) && Inv(Abs())
        invariant output + Flatten(buffersToWrite[i..]) == was + Flatten(buffersToWrite)
      {
        WriteKeeps(Abs());
        assert buffersToWrite[i..] == [buffersToWrite[i]] + buffersToWrite[i + 1..];
        FlattenCons(buffersToWrite[i], buffersToWrite[i + 1..]);
        Regroup(output, buffersToWrite[i], Flatten(buffersToWrite[i + 1..]));
        output := output + buffersToWrite[i];
        i := i + 1;
        pc := Writing(i);
      }
      assert buffersToWrite[i..] == [];
      assert Flatten([]) == "" by { FlattenNone(); }
    }

    // Back end, outside the mutex: back() and pop_back() are on a vector that is not empty.
    method Reuse()
      requires Inv(Abs()) && pc == Writing(|buffersToWrite|)
      modifies this
      ensures Abs() == Recycle(old(Abs())) && Inv(Abs())
    {
      hide Kept, Flatten;
      NextKeeps(Abs(), AsyncLog.Reuse);
      if |buffersToWrite| > 2 {
        buffersToWrite := buffersToWrite[..2];
      }
      if newbuffer1.None? {
        newbuffer1 := Some(buffersToWrite[|buffersToWrite| - 1]);
        buffersToWrite := buffersToWrite[..|buffersToWrite| - 1];
        newbuffer1 := Some("");
      }
      if newbuffer2.None? {
        newbuffer2 := Some(buffersToWrite[|buffersToWrite| - 1]);
        buffersToWrite := buffersToWrite[..|buffersToWrite| - 1];
        newbuffer2 := Some("");
      }
      buffersToWrite := [];
      pc := Top;
    }
  }
}
