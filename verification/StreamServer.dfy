/**
 Streamed replies, as handleAgentStreamAsync and handleChatAsync of
 src/http/HttpServer.cc produce them: a handler on the loop queues the headers and
 submits a task; a worker turns what upstream delivers into functors on the loop's
 queue, among those of every other reply, on this connection or another. The loop is
 the one of EventLoop. Text inside JSON is opaque: it comes with the step that sends it.
 */
module StreamServer {
  import opened Strings
  import opened Chunked
  import ES = EventSource
  import L = EventLoop
  import HttpRoundTrip

  // A dumped JSON text escapes line ends.
  type JsonText = s: string | ES.OneLine(s) witness ""

  function SseEvent(name: string, json: JsonText): (e: string)
    ensures e != []
  {
    "event: " + name + "\n" + "data: " + json + "\n\n"
  }

  const STATUS_LINE := "HTTP/1.1 200 OK\r\n"

  function Headers(close: bool): string {
    STATUS_LINE +
    ("Content-Type: " + "text/event-stream; charset=utf-8" + "\r\n") +
    "Cache-Control: no-cache\r\n" +
    "X-Accel-Buffering: no\r\n" +
    "Transfer-Encoding: chunked\r\n" +
    if close then "Connection: close\r\n\r\n" else "Connection: keep-alive\r\n\r\n"
  }

  // ---------------------------------------------------------------- functors and steps

  // A functor on the loop's queue: it sends on its connection, and may shut it down.
  datatype Functor = Other | Reply(conn: nat, sends: seq<string>, shutdown: bool)

  datatype Kind = Agent | Chat

  datatype Ending =
    | MissingMessage(json: JsonText)
    | Cached(status: JsonText, pieces: seq<JsonText>, done: JsonText)
    | Answered(done: JsonText)
    | Unavailable(json: JsonText)
    | Threw(json: JsonText)

  // What a worker does next.
  datatype Step =
    | AgentBytes(bytes: string)                // upstream delivered bytes, perhaps none
    | AgentEnd(ok: bool, error: JsonText)
    | Thinking(json: JsonText)
    | Delta(content: string, json: JsonText)     // the model delivered content, perhaps none
    | ChatEnd(ending: Ending)

  predicate IsEnd(step: Step) { step.AgentEnd? || step.ChatEnd? }

  function Events(name: string, jsons: seq<JsonText>): (es: seq<string>)
    ensures [] !in es
  {
    if jsons == [] then [] else [SseEvent(name, jsons[0])] + Events(name, jsons[1..])
  }

  // The payloads a step puts on the wire. Empty pieces are filtered out.
  function Payloads(step: Step): (ps: seq<string>)
    ensures [] !in ps
  {
    match step
    case AgentBytes(bytes) => if bytes == [] then [] else [bytes]
    case AgentEnd(ok, error) => if ok then [] else [SseEvent("error", error)]
    case Thinking(json) => [SseEvent("status", json)]
    case Delta(content, json) => if content == [] then [] else [SseEvent("delta", json)]
    case ChatEnd(ending) =>
      match ending
      case Cached(status, pieces, done) => [SseEvent("status", status)] + Events("delta", pieces) + [SseEvent("done", done)]
      case Answered(done) => [SseEvent("done", done)]
      case MissingMessage(json) => [SseEvent("error", json)]
      case Unavailable(json) => [SseEvent("error", json)]
      case Threw(json) => [SseEvent("error", json)]
  }

  function EachChunk(payloads: seq<string>): seq<string> {
    if payloads == [] then [] else [ToChunk(payloads[0])] + EachChunk(payloads[1..])
  }

  function First(conn: nat, close: bool, status: JsonText): Functor {
    Reply(conn, [Headers(close), ToChunk(SseEvent("status", status))], false)
  }

  // The functor a step queues, when it queues one.
  predicate Queues(step: Step) { IsEnd(step) || Payloads(step) != [] }

  function Emitted(conn: nat, close: bool, step: Step): Functor {
    Reply(conn, EachChunk(Payloads(step)) + (if IsEnd(step) then [TERMINATOR] else []), IsEnd(step) && close)
  }

  // ---------------------------------------------------------------- the joint system

  datatype Phase = Announced | Running(thinking: bool) | Done

  datatype Stream = Stream(kind: Kind, close: bool, status: JsonText, phase: Phase, steps: seq<Step>)

  predicate Legal(st: Stream, step: Step) {
    st.phase.Running? &&
    match st.kind
    case Agent => step.AgentBytes? || step.AgentEnd?
    case Chat =>
      if st.phase.thinking then
        step.Delta? || (step.ChatEnd? && (step.ending.Answered? || step.ending.Unavailable? || step.ending.Threw?))
      else
        step.Thinking? || (step.ChatEnd? && (step.ending.MissingMessage? || step.ending.Cached? || step.ending.Threw?))
  }

  function Advance(st: Stream, step: Step): Stream
    requires Legal(st, step)
  {
    st.(steps := st.steps + [step], phase := if IsEnd(step) then Done else if step.Thinking? then Running(true) else st.phase)
  }

  datatype State = State(
    loop: L.State<Functor>,
    replies: map<nat, seq<Stream>>,      // per connection, in the order requested
    overlapped: map<nat, seq<Stream>>)   // history: where a request came before the previous reply was done, the replies by then

  const START := State(L.Init<Functor>(), map[], map[])

  function RepliesOn(s: State, conn: nat): seq<Stream> {
    if conn in s.replies then s.replies[conn] else []
  }

  // No reply is under way.
  predicate Settled(rs: seq<Stream>) { rs != [] ==> rs[|rs| - 1].phase.Done? }

  // The last reply was asked to close the connection.
  predicate AskedToClose(rs: seq<Stream>) { rs != [] && rs[|rs| - 1].close }

  datatype Action =
    | LoopStep(a: L.Action<Functor>)   // the loop, and everything unrelated to these replies
    | Request(conn: nat, kind: Kind, close: bool, status: JsonText)
    | Submit(conn: nat, i: nat)
    | Work(conn: nat, i: nat, step: Step)

  predicate Enabled(s: State, a: Action) {
    match a
    case LoopStep(b) =>
      L.Enabled(s.loop, b) && (b.HandlerQueues? || b.FunctorQueues? || b.OtherQueues? ==> b.f.Other?)
    case Request(conn, _, _, _) => s.loop.pc.Handling? && !AskedToClose(RepliesOn(s, conn))
    case Submit(conn, i) => i < |RepliesOn(s, conn)| && RepliesOn(s, conn)[i].phase.Announced?
    case Work(conn, i, step) => i < |RepliesOn(s, conn)| && Legal(RepliesOn(s, conn)[i], step)
  }

  function Next(s: State, a: Action): State
    requires Enabled(s, a)
  {
    match a
    case LoopStep(b) => s.(loop := L.Next(s.loop, b))
    case Request(conn, kind, close, status) =>
      var rs := RepliesOn(s, conn);
      State(L.Next(s.loop, L.HandlerQueues(First(conn, close, status))),
            s.replies[conn := rs + [Stream(kind, close, status, Announced, [])]],
            if conn in s.overlapped || Settled(rs) then s.overlapped else s.overlapped[conn := rs])
    case Submit(conn, i) =>
      var rs := RepliesOn(s, conn);
      s.(replies := s.replies[conn := rs[i := rs[i].(phase := Running(false))]])
    case Work(conn, i, step) =>
      var rs := RepliesOn(s, conn);
      s.(loop := if Queues(step) then L.Next(s.loop, L.OtherQueues(Emitted(conn, rs[i].close, step))) else s.loop,
         replies := s.replies[conn := rs[i := Advance(rs[i], step)]])
  }

  ghost predicate Reaches(s: State, actions: seq<Action>, t: State)
    decreases |actions|
  {
    if actions == [] then t == s
    else Enabled(s, actions[0]) && Reaches(Next(s, actions[0]), actions[1..], t)
  }

  // ---------------------------------------------------------------- what should be on the wire

  // Everything the functors hand to send() for conn, in the order they run.
  function Sent(fs: seq<Functor>, conn: nat): string {
    if fs == [] then []
    else
      var f := fs[|fs| - 1];
      Sent(fs[..|fs| - 1], conn) + if f.Reply? && f.conn == conn then Flatten(f.sends) else []
  }

  // Whether one of them shuts conn down.
  predicate Shut(fs: seq<Functor>, conn: nat) {
    exists i :: 0 <= i < |fs| && fs[i].Reply? && fs[i].conn == conn && fs[i].shutdown
  }

  function AllPayloads(steps: seq<Step>): (ps: seq<string>)
    ensures [] !in ps
  {
    if steps == [] then [] else AllPayloads(steps[..|steps| - 1]) + Payloads(steps[|steps| - 1])
  }

  function Script(st: Stream): (ps: seq<string>)
    ensures [] !in ps
  {
    [SseEvent("status", st.status)] + AllPayloads(st.steps)
  }

  function Text(st: Stream): string {
    Headers(st.close) + Chunks(Script(st), if st.phase.Done? then TERMINATOR else [])
  }

  // One reply after another.
  function Wire(rs: seq<Stream>): string {
    if rs == [] then [] else Wire(rs[..|rs| - 1]) + Text(rs[|rs| - 1])
  }

  // ---------------------------------------------------------------- chunk sequences

  lemma {:induction false} ChunksFlat(ps: seq<string>, tail: string)
    ensures Chunks(ps, tail) == Flatten(EachChunk(ps)) + tail
  {
    hide ToChunk;
    if ps != [] {
      ChunksFlat(ps[1..], tail);
      assert EachChunk(ps)[1..] == EachChunk(ps[1..]);
    }
  }

  lemma {:induction false} EachChunkAppend(a: seq<string>, b: seq<string>)
    ensures EachChunk(a + b) == EachChunk(a) + EachChunk(b)
  {
    hide ToChunk;
    if a == [] {
      assert a + b == b;
    } else {
      EachChunkAppend(a[1..], b);
      assert (a + b)[1..] == a[1..] + b;
    }
  }

  lemma TextFlat(st: Stream)
    ensures Text(st) == Headers(st.close) + Flatten(EachChunk(Script(st))) + if st.phase.Done? then TERMINATOR else []
  {
    hide Headers, Script;
    ChunksFlat(Script(st), if st.phase.Done? then TERMINATOR else []);
  }

  lemma ScriptGrows(st: Stream, step: Step)
    requires Legal(st, step)
    ensures Script(Advance(st, step)) == Script(st) + Payloads(step)
  {
    hide Payloads, SseEvent;
    var now := Advance(st, step);
    assert now.steps[..|now.steps| - 1] == st.steps;
  }

  // One more step adds its chunks, and the terminator when it is the last.
  lemma TextGrows(st: Stream, step: Step, conn: nat)
    requires Legal(st, step)
    ensures Text(Advance(st, step)) == Text(st) + if Queues(step) then Flatten(Emitted(conn, st.close, step).sends) else []
  {
    hide Headers, Payloads, EachChunk, Flatten, Script, Text;
    var ps := Payloads(step);
    var tail := if IsEnd(step) then [TERMINATOR] else [];
    TextFlat(st);
    TextFlat(Advance(st, step));
    ScriptGrows(st, step);
    EachChunkAppend(Script(st), ps);
    FlattenAppend(EachChunk(Script(st)), EachChunk(ps));
    FlattenAppend(EachChunk(ps), tail);
    FlattenTail(step);
    NoChunks();
  }

  lemma FlattenTail(step: Step)
    ensures Flatten(if IsEnd(step) then [TERMINATOR] else []) == if IsEnd(step) then TERMINATOR else []
  {}

  lemma NoChunks()
    ensures Flatten(EachChunk([])) == []
  {}

  lemma TextStarts(kind: Kind, close: bool, status: JsonText, conn: nat)
    ensures Text(Stream(kind, close, status, Announced, [])) == Flatten(First(conn, close, status).sends)
  {
    hide ToChunk, Headers, SseEvent;
    var st := Stream(kind, close, status, Announced, []);
    var e := SseEvent("status", status);
    assert Script(st) == [e];
    assert [e][1..] == [];
    assert Chunks([e], []) == ToChunk(e) + Chunks([], []);
    assert First(conn, close, status).sends[1..] == [ToChunk(e)];
    assert [ToChunk(e)][1..] == [];
    assert Flatten([ToChunk(e)]) == ToChunk(e);
  }

  // ---------------------------------------------------------------- the invariant

  // All replies but the last are done, and none of them was to close the connection.
  predicate InTurn(rs: seq<Stream>) {
    forall i :: 0 <= i < |rs| - 1 ==> rs[i].phase.Done? && !rs[i].close
  }

  predicate Closing(rs: seq<Stream>) { rs != [] && Settled(rs) && AskedToClose(rs) }

  // A connection on which no request came too early.
  ghost predicate WholeInv(queued: seq<Functor>, rs: seq<Stream>, conn: nat) {
    && InTurn(rs) && Sent(queued, conn) == Wire(rs)
    && (Shut(queued, conn) <==> Closing(rs))
    // Only the last functor shuts down.
    && forall n :: 0 <= n <= |queued| && Shut(queued[..n], conn) ==> Closing(rs) && Sent(queued[..n], conn) == Wire(rs)
  }

  // A connection on which one did: the headers of the new reply stand inside an open body.
  ghost predicate TornInv(queued: seq<Functor>, was: seq<Stream>, rs: seq<Stream>, conn: nat) {
    && InTurn(was) && !Settled(was) && SameAsked(was, rs)
    && Wire(was) + STATUS_LINE <= Sent(queued, conn)
  }

  predicate SameAsked(was: seq<Stream>, rs: seq<Stream>) {
    |was| < |rs| && forall i :: 0 <= i < |was| ==> was[i].close == rs[i].close
  }

  // The order of a worker's steps, and the one ending of a finished reply.
  ghost predicate Phased(st: Stream) {
    var n := |st.steps|;
    match st.phase
    case Announced => n == 0
    case Running(thinking) => forall i :: 0 <= i < n ==> Middle(st.kind, i, st.steps[i])
    case Done =>
      && n > 0 && IsEnd(st.steps[n - 1]) && (st.kind.Agent? <==> st.steps[n - 1].AgentEnd?)
      && forall i :: 0 <= i < n - 1 ==> Middle(st.kind, i, st.steps[i])
  }

  predicate Middle(kind: Kind, i: nat, step: Step) {
    match kind
    case Agent => step.AgentBytes?
    case Chat => if i == 0 then step.Thinking? else step.Delta?
  }

  lemma AdvancePhased(st: Stream, step: Step)
    requires Legal(st, step) && WellPhased(st)
    ensures WellPhased(Advance(st, step))
  {}

  ghost predicate WellPhased(st: Stream) {
    Phased(st) && (st.phase.Running? ==> (st.phase.thinking <==> st.kind.Chat? && st.steps != []))
  }

  ghost predicate ConnInv(s: State, conn: nat) {
    && (forall i :: 0 <= i < |RepliesOn(s, conn)| ==> WellPhased(RepliesOn(s, conn)[i]))
    && if conn in s.overlapped then TornInv(s.loop.queued, s.overlapped[conn], RepliesOn(s, conn), conn)
       else WholeInv(s.loop.queued, RepliesOn(s, conn), conn)
  }

  ghost predicate Inv(s: State) {
    L.Inv(s.loop) && forall conn :: ConnInv(s, conn)
  }

  // ---------------------------------------------------------------- functors and texts

  lemma SentSnoc(fs: seq<Functor>, f: Functor, conn: nat)
    ensures Sent(fs + [f], conn) == Sent(fs, conn) + if f.Reply? && f.conn == conn then Flatten(f.sends) else []
  {
    assert (fs + [f])[..|fs|] == fs;
  }

  lemma ShutSnoc(fs: seq<Functor>, f: Functor, conn: nat)
    ensures Shut(fs + [f], conn) <==> Shut(fs, conn) || (f.Reply? && f.conn == conn && f.shutdown)
  {
    var now := fs + [f];
    assert now[|fs|] == f;
    assert forall i :: 0 <= i < |fs| ==> now[i] == fs[i];
  }

  lemma {:induction false} SentPrefix(fs: seq<Functor>, n: nat, conn: nat)
    requires n <= |fs|
    ensures Sent(fs[..n], conn) <= Sent(fs, conn)
    decreases |fs|
  {
    hide Flatten;
    if n < |fs| {
      SentPrefix(fs[..|fs| - 1], n, conn);
      assert fs[..|fs| - 1][..n] == fs[..n];
    } else {
      assert fs[..n] == fs;
    }
  }

  lemma WireSnoc(rs: seq<Stream>, st: Stream)
    ensures Wire(rs + [st]) == Wire(rs) + Text(st)
  {
    assert (rs + [st])[..|rs|] == rs;
  }

  lemma WireLast(rs: seq<Stream>, st: Stream)
    requires rs != []
    ensures Wire(rs[|rs| - 1 := st]) == Wire(rs[..|rs| - 1]) + Text(st)
  {
    assert rs[|rs| - 1 := st][..|rs| - 1] == rs[..|rs| - 1];
  }

  // ---------------------------------------------------------------- one connection's functors

  // Another connection's functor, or nobody's, leaves a connection alone.
  lemma Foreign(queued: seq<Functor>, rs: seq<Stream>, f: Functor, conn: nat)
    requires WholeInv(queued, rs, conn) && !(f.Reply? && f.conn == conn)
    ensures WholeInv(queued + [f], rs, conn)
  {
    hide Wire, Shut, Sent, InTurn, Closing;
    var now := queued + [f];
    SentSnoc(queued, f, conn);
    ShutSnoc(queued, f, conn);
    forall n | 0 <= n <= |now| && Shut(now[..n], conn)
      ensures Closing(rs) && Sent(now[..n], conn) == Wire(rs)
    {
      if n <= |queued| {
        assert now[..n] == queued[..n];
      } else {
        assert now[..n] == now && queued[..|queued|] == queued;
      }
    }
  }

  // A connection's own functor carries its text on.
  lemma Own(queued: seq<Functor>, before: seq<Stream>, after: seq<Stream>, f: Functor)
    requires f.Reply? && WholeInv(queued, before, f.conn) && !Closing(before) && InTurn(after)
    requires Wire(after) == Wire(before) + Flatten(f.sends)
    requires f.shutdown <==> Closing(after)
    ensures WholeInv(queued + [f], after, f.conn)
  {
    hide Wire, Shut, Sent, InTurn, Closing, Flatten;
    var now := queued + [f];
    SentSnoc(queued, f, f.conn);
    ShutSnoc(queued, f, f.conn);
    forall n | 0 <= n <= |now|
      ensures Shut(now[..n], f.conn) ==> Closing(after) && Sent(now[..n], f.conn) == Wire(after)
    {
      if n <= |queued| {
        assert now[..n] == queued[..n];
      } else {
        assert now[..n] == now;
      }
    }
  }

  lemma TornGrows(queued: seq<Functor>, was: seq<Stream>, rs: seq<Stream>, after: seq<Stream>, f: Functor, conn: nat)
    requires TornInv(queued, was, rs, conn) && SameAsked(was, after)
    ensures TornInv(queued + [f], was, after, conn)
  {
    hide Wire, Sent, Flatten, InTurn, Settled, SameAsked;
    SentSnoc(queued, f, conn);
  }

  // ---------------------------------------------------------------- steps

  lemma LoopStepKeeps(s: State, a: L.Action<Functor>)
    requires Inv(s) && Enabled(s, LoopStep(a))
    ensures Inv(Next(s, LoopStep(a)))
  {
    hide WholeInv, TornInv, L.Inv, WellPhased, SameAsked;
    L.NextKeeps(s.loop, a);
    var t := Next(s, LoopStep(a));
    forall conn ensures ConnInv(t, conn) {
      assert ConnInv(s, conn);
      if a.HandlerQueues? || a.FunctorQueues? || a.OtherQueues? {
        AsideKeeps(s, conn, a.f);
      }
    }
  }

  // A functor that is not this connection's, at the end of the queue.
  lemma AsideKeeps(s: State, conn: nat, f: Functor)
    requires ConnInv(s, conn) && !(f.Reply? && f.conn == conn)
    ensures var queued, rs := s.loop.queued + [f], RepliesOn(s, conn);
      if conn in s.overlapped then TornInv(queued, s.overlapped[conn], rs, conn) else WholeInv(queued, rs, conn)
  {
    hide WholeInv, WellPhased, Wire, Sent, InTurn, Settled;
    if conn in s.overlapped {
      TornGrows(s.loop.queued, s.overlapped[conn], RepliesOn(s, conn), RepliesOn(s, conn), f, conn);
    } else {
      Foreign(s.loop.queued, RepliesOn(s, conn), f, conn);
    }
  }

  // What queueing f for one connection, whose replies become rs, has to establish there.
  ghost predicate Carries(s: State, f: Functor, rs: seq<Stream>, overlapped: map<nat, seq<Stream>>)
    requires f.Reply?
  {
    if f.conn in overlapped then TornInv(s.loop.queued + [f], overlapped[f.conn], rs, f.conn)
    else WholeInv(s.loop.queued + [f], rs, f.conn)
  }

  lemma QueueKeeps(s: State, f: Functor, t: State)
    requires Inv(s) && f.Reply? && L.Inv(t.loop) && t.loop.queued == s.loop.queued + [f]
    requires t.replies == s.replies[f.conn := RepliesOn(t, f.conn)]
    requires forall c :: c != f.conn ==> (c in t.overlapped <==> c in s.overlapped)
    requires forall c :: c != f.conn && c in s.overlapped ==> t.overlapped[c] == s.overlapped[c]
    requires Carries(s, f, RepliesOn(t, f.conn), t.overlapped)
    requires forall i :: 0 <= i < |RepliesOn(t, f.conn)| ==> WellPhased(RepliesOn(t, f.conn)[i])
    ensures Inv(t)
  {
    hide WholeInv, TornInv, L.Inv, WellPhased;
    forall conn ensures ConnInv(t, conn) {
      assert ConnInv(s, conn);
      if conn != f.conn {
        AsideKeeps(s, conn, f);
        assert RepliesOn(t, conn) == RepliesOn(s, conn);
      }
    }
  }

  // The first functor of a reply, requested in its turn.
  lemma InItsTurn(s: State, f: Functor, st: Stream)
    requires f.Reply? && ConnInv(s, f.conn) && f.conn !in s.overlapped
    requires Settled(RepliesOn(s, f.conn)) && !AskedToClose(RepliesOn(s, f.conn))
    requires Text(st) == Flatten(f.sends) && st.phase.Announced? && !f.shutdown
    ensures WholeInv(s.loop.queued + [f], RepliesOn(s, f.conn) + [st], f.conn)
  {
    hide Text, WholeInv, Flatten, WellPhased, Wire;
    var rs := RepliesOn(s, f.conn);
    assert InTurn(rs) by { WholeTurn(s.loop.queued, rs, f.conn); }
    assert InTurn(rs + [st]) && !Closing(rs + [st]);
    WireSnoc(rs, st);
    Own(s.loop.queued, rs, rs + [st], f);
  }

  lemma WholeTurn(queued: seq<Functor>, rs: seq<Stream>, conn: nat)
    requires WholeInv(queued, rs, conn)
    ensures InTurn(rs) && Sent(queued, conn) == Wire(rs)
  {}

  // The first functor of a reply, requested while another is under way.
  lemma TooEarly(s: State, f: Functor, st: Stream)
    requires f.Reply? && ConnInv(s, f.conn) && f.conn !in s.overlapped && !Settled(RepliesOn(s, f.conn))
    requires STATUS_LINE <= Flatten(f.sends)
    ensures TornInv(s.loop.queued + [f], RepliesOn(s, f.conn), RepliesOn(s, f.conn) + [st], f.conn)
  {
    hide WholeInv, Flatten, WellPhased, Wire, Sent, InTurn, Settled;
    var rs := RepliesOn(s, f.conn);
    WholeTurn(s.loop.queued, rs, f.conn);
    SentSnoc(s.loop.queued, f, f.conn);
  }

  lemma StatusLineFirst(conn: nat, close: bool, status: JsonText)
    ensures STATUS_LINE <= Flatten(First(conn, close, status).sends)
  {
    hide ToChunk, SseEvent;
    var sends := First(conn, close, status).sends;
    assert sends[0] == Headers(close) && STATUS_LINE <= Headers(close);
    assert Flatten(sends) == Headers(close) + Flatten(sends[1..]);
  }

  lemma RequestKeeps(s: State, a: Action)
    requires Inv(s) && a.Request? && Enabled(s, a)
    ensures Inv(Next(s, a))
  {
    hide WholeInv, TornInv, L.Inv, Text, Headers, ToChunk, Flatten, SseEvent, First, Settled, AskedToClose;
    var f, t := First(a.conn, a.close, a.status), Next(s, a);
    var st := Stream(a.kind, a.close, a.status, Announced, []);
    L.NextKeeps(s.loop, L.HandlerQueues(f));
    FirstIs(a.conn, a.close, a.status);
    TextStarts(a.kind, a.close, a.status, a.conn);
    StatusLineFirst(a.conn, a.close, a.status);
    assert ConnInv(s, a.conn);
    assert WellPhased(st);
    if a.conn in s.overlapped {
      hide WellPhased;
      TornMore(s, a.conn, f, st);
    } else if Settled(RepliesOn(s, a.conn)) {
      hide WellPhased;
      InItsTurn(s, f, st);
    } else {
      hide WellPhased;
      TooEarly(s, f, st);
    }
    QueueKeeps(s, f, t);
  }

  lemma FirstIs(conn: nat, close: bool, status: JsonText)
    ensures var f := First(conn, close, status); f.Reply? && f.conn == conn && !f.shutdown
  {}

  lemma TornMore(s: State, conn: nat, f: Functor, st: Stream)
    requires ConnInv(s, conn) && conn in s.overlapped
    ensures TornInv(s.loop.queued + [f], s.overlapped[conn], RepliesOn(s, conn) + [st], conn)
  {
    hide WholeInv, WellPhased, Wire, Sent, InTurn, Settled;
    TornGrows(s.loop.queued, s.overlapped[conn], RepliesOn(s, conn), RepliesOn(s, conn) + [st], f, conn);
  }

  // Replacing one reply by a later state of itself.
  predicate Later(was: seq<Stream>, i: nat, st: Stream) {
    i < |was| && st.close == was[i].close
  }

  lemma TornUpdate(s: State, conn: nat, i: nat, st: Stream)
    requires ConnInv(s, conn) && conn in s.overlapped && Later(RepliesOn(s, conn), i, st)
    ensures TornInv(s.loop.queued, s.overlapped[conn], RepliesOn(s, conn)[i := st], conn)
  {
    hide WholeInv, WellPhased, Wire, Sent, InTurn, Settled;
  }

  // On a whole connection only the last reply can move.
  lemma OnlyLast(s: State, conn: nat, i: nat)
    requires ConnInv(s, conn) && conn !in s.overlapped && i < |RepliesOn(s, conn)| && !RepliesOn(s, conn)[i].phase.Done?
    ensures i == |RepliesOn(s, conn)| - 1 && !Closing(RepliesOn(s, conn))
  {
    hide WellPhased, Wire, Sent, Shut;
  }

  // The last reply moves on without a functor: its text stays as it is.
  lemma WholeUpdate(s: State, conn: nat, st: Stream)
    requires ConnInv(s, conn) && conn !in s.overlapped && RepliesOn(s, conn) != [] && !Settled(RepliesOn(s, conn))
    requires var rs := RepliesOn(s, conn); Text(st) == Text(rs[|rs| - 1]) && !st.phase.Done?
    ensures var rs := RepliesOn(s, conn); WholeInv(s.loop.queued, rs[|rs| - 1 := st], conn)
  {
    hide WellPhased, Text, Sent, Shut;
    var rs := RepliesOn(s, conn);
    WireLast(rs, st);
    assert !Closing(rs) && !Closing(rs[|rs| - 1 := st]);
  }

  lemma QuietKeeps(s: State, conn: nat, i: nat, st: Stream)
    requires Inv(s) && Later(RepliesOn(s, conn), i, st) && WellPhased(st)
    requires !RepliesOn(s, conn)[i].phase.Done? && !st.phase.Done? && Text(st) == Text(RepliesOn(s, conn)[i])
    ensures Inv(s.(replies := s.replies[conn := RepliesOn(s, conn)[i := st]]))
  {
    hide WholeInv, TornInv, L.Inv, Text, WellPhased;
    var t := s.(replies := s.replies[conn := RepliesOn(s, conn)[i := st]]);
    forall c ensures ConnInv(t, c) {
      assert ConnInv(s, c);
      if c == conn {
        if c in s.overlapped {
          TornUpdate(s, conn, i, st);
        } else {
          OnlyLast(s, conn, i);
          WholeUpdate(s, conn, st);
        }
      } else {
        assert RepliesOn(t, c) == RepliesOn(s, c);
      }
    }
  }

  lemma SubmitKeeps(s: State, conn: nat, i: nat)
    requires Inv(s) && Enabled(s, Submit(conn, i))
    ensures Inv(Next(s, Submit(conn, i)))
  {
    hide WholeInv, TornInv, L.Inv;
    var st := RepliesOn(s, conn)[i];
    assert ConnInv(s, conn);
    assert WellPhased(st.(phase := Running(false)));
    SameText(st);
    QuietKeeps(s, conn, i, st.(phase := Running(false)));
  }

  lemma SameText(st: Stream)
    requires st.phase.Announced?
    ensures Text(st.(phase := Running(false))) == Text(st)
  {
    assert Script(st.(phase := Running(false))) == Script(st);
    hide Headers, Chunks, Script;
  }

  // The last reply moves on with a functor of its own.
  lemma WholeAdvance(s: State, f: Functor, st: Stream)
    requires f.Reply? && ConnInv(s, f.conn) && f.conn !in s.overlapped && RepliesOn(s, f.conn) != []
    requires !Settled(RepliesOn(s, f.conn)) && (f.shutdown <==> st.phase.Done? && st.close)
    requires var rs := RepliesOn(s, f.conn); Text(st) == Text(rs[|rs| - 1]) + Flatten(f.sends)
    ensures var rs := RepliesOn(s, f.conn); WholeInv(s.loop.queued + [f], rs[|rs| - 1 := st], f.conn)
  {
    hide WellPhased, WholeInv, Text, Flatten, Wire;
    var rs := RepliesOn(s, f.conn);
    WholeTurn(s.loop.queued, rs, f.conn);
    WireLast(rs, st);
    WireLast(rs, rs[|rs| - 1]);
    assert rs[|rs| - 1 := rs[|rs| - 1]] == rs;
    assert InTurn(rs[|rs| - 1 := st]) && (Closing(rs[|rs| - 1 := st]) <==> st.phase.Done? && st.close);
    Own(s.loop.queued, rs, rs[|rs| - 1 := st], f);
  }

  lemma WorkKeeps(s: State, conn: nat, i: nat, step: Step)
    requires Inv(s) && Enabled(s, Work(conn, i, step))
    ensures Inv(Next(s, Work(conn, i, step)))
  {
    hide WholeInv, TornInv, L.Inv, Text, Payloads, Flatten, EachChunk, Phased;
    var rs, t := RepliesOn(s, conn), Next(s, Work(conn, i, step));
    assert ConnInv(s, conn) && WellPhased(rs[i]);
    AdvancePhased(rs[i], step);
    TextGrows(rs[i], step, conn);
    var st := Advance(rs[i], step);
    hide WellPhased, Queues, IsEnd, Legal;
    if Queues(step) {
      var f := Emitted(conn, rs[i].close, step);
      L.NextKeeps(s.loop, L.OtherQueues(f));
      EmittedIs(rs[i], step, conn);
      if conn in s.overlapped {
        TornAdvance(s, conn, f, i, st);
      } else {
        OnlyLast(s, conn, i);
        WholeAdvance(s, f, st);
      }
      QueueKeeps(s, f, t);
    } else {
      NoEnd(rs[i], step);
      QuietKeeps(s, conn, i, st);
    }
  }

  lemma EmittedIs(st: Stream, step: Step, conn: nat)
    requires Legal(st, step)
    ensures var f, now := Emitted(conn, st.close, step), Advance(st, step);
      f.Reply? && f.conn == conn && (f.shutdown <==> now.phase.Done? && now.close)
    ensures !st.phase.Done? && Advance(st, step).close == st.close
  {}

  lemma NoEnd(st: Stream, step: Step)
    requires Legal(st, step) && !Queues(step)
    ensures !Advance(st, step).phase.Done? && !st.phase.Done? && Advance(st, step).close == st.close
  {}

  lemma TornAdvance(s: State, conn: nat, f: Functor, i: nat, st: Stream)
    requires ConnInv(s, conn) && conn in s.overlapped && Later(RepliesOn(s, conn), i, st)
    ensures TornInv(s.loop.queued + [f], s.overlapped[conn], RepliesOn(s, conn)[i := st], conn)
  {
    hide WholeInv, WellPhased, Wire, Sent, InTurn, Settled;
    TornGrows(s.loop.queued, s.overlapped[conn], RepliesOn(s, conn), RepliesOn(s, conn)[i := st], f, conn);
  }

  lemma NextKeeps(s: State, a: Action)
    requires Inv(s) && Enabled(s, a)
    ensures Inv(Next(s, a))
  {
    hide Inv, Enabled, Next;
    match a
    case LoopStep(b) => LoopStepKeeps(s, b);
    case Request(_, _, _, _) => RequestKeeps(s, a);
    case Submit(conn, i) => SubmitKeeps(s, conn, i);
    case Work(conn, i, step) => WorkKeeps(s, conn, i, step);
  }

  lemma {:induction false} ReachesKeeps(s: State, actions: seq<Action>, t: State)
    requires Inv(s) && Reaches(s, actions, t)
    ensures Inv(t)
    decreases |actions|
  {
    hide Inv, Enabled, Next;
    if actions != [] {
      NextKeeps(s, actions[0]);
      ReachesKeeps(Next(s, actions[0]), actions[1..], t);
    }
  }

  lemma StartInv()
    ensures Inv(START)
  {
    forall conn ensures ConnInv(START, conn) {
      assert RepliesOn(START, conn) == [];
    }
  }

  lemma ReachableInv(actions: seq<Action>, t: State)
    requires Reaches(START, actions, t)
    ensures Inv(t)
  {
    hide Inv;
    StartInv();
    ReachesKeeps(START, actions, t);
  }

  // ---------------------------------------------------------------- a client of one connection

  // bodies: the complete ones; more: what has come of the next; broken: what is no reply at all.
  datatype Heard = Heard(bodies: seq<string>, more: string, broken: bool)

  // Read replies by the standard's rules, asked for with these wishes to close.
  function Listen(s: string, closes: seq<bool>): Heard
    decreases |closes|
  {
    if closes == [] then Heard([], [], s != [])
    else
      var h := Headers(closes[0]);
      if !(h <= s) then Heard([], [], !(s <= h))
      else
        match Decode(s[|h|..])
        case Body(data, rest) =>
          var more := Listen(rest, closes[1..]);
          more.(bodies := [data] + more.bodies)
        case NeedMore(data) => Heard([], data, false)
        case Malformed => Heard([], [], true)
  }

  function Closes(rs: seq<Stream>): (closes: seq<bool>)
    ensures |closes| == |rs| && forall i :: 0 <= i < |rs| ==> closes[i] == rs[i].close
  {
    seq(|rs|, i requires 0 <= i < |rs| => rs[i].close)
  }

  // Everything a reply delivers.
  function Content(st: Stream): string { Flatten(Script(st)) }

  function Contents(rs: seq<Stream>): (contents: seq<string>)
    ensures |contents| == |rs| && forall i :: 0 <= i < |rs| ==> contents[i] == Content(rs[i])
  {
    seq(|rs|, i requires 0 <= i < |rs| => Content(rs[i]))
  }

  lemma {:induction false} ChunksTail(ps: seq<string>, tail: string)
    ensures Chunks(ps, tail) == Chunks(ps, []) + tail
  {
    ChunksFlat(ps, tail);
    ChunksFlat(ps, []);
  }

  // A client that reads the body by the standard's rules never sees it end before the
  // reply is complete, and has read a beginning of what was delivered.
  lemma NeverEndsEarly(st: Stream, sent: string)
    requires sent <= Text(st) && Headers(st.close) <= sent && (sent == Text(st) ==> !st.phase.Done?)
    ensures var d := Decode(sent[|Headers(st.close)|..]);
      d.NeedMore? && d.data <= Content(st)
  {
    hide Headers, Script, Decode, Chunks;
    var h, full := Headers(st.close), Chunks(Script(st), TERMINATOR);
    ChunksTail(Script(st), TERMINATOR);
    var k := |sent| - |h|;
    assert sent[|h|..] == Text(st)[|h|..][..k] == full[..k];
    NoEarlyEnd(Script(st), k);
  }

  // A finished reply is one well-formed chunked body: it decodes to everything delivered,
  // and the reader stops where the next reply begins.
  lemma CompleteDecodes(st: Stream, rest: string)
    requires st.phase.Done?
    ensures Headers(st.close) <= Text(st) + rest
    ensures Decode((Text(st) + rest)[|Headers(st.close)|..]) == Body(Content(st), rest)
  {
    hide Headers, Script, Decode, Chunks;
    var h := Headers(st.close);
    ChunksTail(Script(st), TERMINATOR);
    ChunksTail(Script(st), TERMINATOR + rest);
    assert Text(st) + rest == h + Chunks(Script(st), TERMINATOR + rest);
    assert (h + Chunks(Script(st), TERMINATOR + rest))[|h|..] == Chunks(Script(st), TERMINATOR + rest);
    StreamDecodes(Script(st), rest);
  }

  lemma ListenComplete(st: Stream, rest: string, closes: seq<bool>)
    requires st.phase.Done? && closes != [] && closes[0] == st.close
    ensures var h, more := Listen(Text(st) + rest, closes), Listen(rest, closes[1..]);
      h == more.(bodies := [Content(st)] + more.bodies)
  {
    hide Headers, Text, Decode, Content;
    CompleteDecodes(st, rest);
  }

  lemma ListenPartly(st: Stream, sent: string, closes: seq<bool>)
    requires sent <= Text(st) && (sent == Text(st) ==> !st.phase.Done?) && closes != [] && closes[0] == st.close
    ensures var h := Listen(sent, closes);
      h.bodies == [] && !h.broken && h.more <= Content(st)
  {
    hide Chunks, Script, Decode, Content;
    var h := Headers(st.close);
    assert h <= Text(st);
    hide Headers, Text;
    if h <= sent {
      NeverEndsEarly(st, sent);
    } else {
      assert sent <= h;
    }
  }

  lemma {:induction false} WireFront(rs: seq<Stream>)
    requires rs != []
    ensures Wire(rs) == Text(rs[0]) + Wire(rs[1..])
    decreases |rs|
  {
    hide Text;
    var n := |rs| - 1;
    if n == 0 {
      assert rs[..0] == [] && rs[1..] == [];
    } else {
      hide Wire;
      WireFront(rs[..n]);
      assert rs[..n][1..] == rs[1..][..n - 1] && rs[1..][n - 1] == rs[n];
      WireEnd(rs);
      WireEnd(rs[1..]);
      Regroup(Text(rs[0]), Wire(rs[1..][..n - 1]), Text(rs[n]));
    }
  }

  lemma WireEnd(rs: seq<Stream>)
    requires rs != []
    ensures Wire(rs) == Wire(rs[..|rs| - 1]) + Text(rs[|rs| - 1])
  {
    hide Text;
  }

  // How many replies s holds whole.
  function WholeIn(s: string, rs: seq<Stream>): (n: nat)
    ensures n <= |rs|
  {
    if rs == [] || !rs[0].phase.Done? || !(Text(rs[0]) <= s) then 0
    else 1 + WholeIn(s[|Text(rs[0])|..], rs[1..])
  }

  // The client has the contents of the replies sent whole, a beginning of the next, and
  // nothing it cannot read; all of them exactly when all are done and sent.
  predicate HeardRight(rs: seq<Stream>, sent: string) {
    var h, n := Listen(sent, Closes(rs)), WholeIn(sent, rs);
    && !h.broken && h.bodies == Contents(rs)[..n]
    && h.more <= (if n < |rs| then Content(rs[n]) else [])
    && (n == |rs| <==> sent == Wire(rs) && Settled(rs))
  }

  // That is so whatever beginning of the replies has been sent.
  lemma {:induction false} Hears(rs: seq<Stream>, sent: string)
    requires InTurn(rs) && sent <= Wire(rs)
    ensures HeardRight(rs, sent)
    decreases |rs|
  {
    hide Text, Content, Listen, InTurn, Settled, HeardRight;
    if rs == [] {
      NothingHeard();
    } else {
      WireFront(rs);
      if rs[0].phase.Done? && Text(rs[0]) <= sent {
        var rest := sent[|Text(rs[0])|..];
        assert sent == Text(rs[0]) + rest;
        TurnRest(rs);
        Hears(rs[1..], rest);
        HearsMore(rs, rest);
      } else {
        HearsPartly(rs, sent);
      }
    }
  }

  lemma HearsMore(rs: seq<Stream>, rest: string)
    requires rs != [] && rs[0].phase.Done? && InTurn(rs) && HeardRight(rs[1..], rest)
    requires Wire(rs) == Text(rs[0]) + Wire(rs[1..])
    ensures HeardRight(rs, Text(rs[0]) + rest)
  {
    hide Text, Content, Wire, Listen, InTurn, Settled, Closes, Contents, WholeIn;
    var n := WholeIn(rest, rs[1..]);
    TurnRest(rs);
    ListenComplete(rs[0], rest, Closes(rs));
    ClosesFront(rs);
    WholeFront(rs, rest);
    ContentsFront(rs, n);
    SameEnd(Text(rs[0]), rest, Wire(rs[1..]));
    assert n < |rs[1..]| ==> rs[1..][n] == rs[n + 1];
  }

  lemma SameEnd(a: string, b: string, c: string)
    ensures a + b == a + c <==> b == c
  {
    assert (a + b)[|a|..] == b && (a + c)[|a|..] == c;
  }

  lemma ClosesFront(rs: seq<Stream>)
    requires rs != []
    ensures Closes(rs)[0] == rs[0].close && Closes(rs)[1..] == Closes(rs[1..])
  {}

  lemma ContentsFront(rs: seq<Stream>, n: nat)
    requires rs != [] && n < |rs|
    ensures Contents(rs)[..n + 1] == [Content(rs[0])] + Contents(rs[1..])[..n]
  {
    hide Content;
  }

  lemma WholeFront(rs: seq<Stream>, rest: string)
    requires rs != [] && rs[0].phase.Done?
    ensures WholeIn(Text(rs[0]) + rest, rs) == WholeIn(rest, rs[1..]) + 1
  {
    hide Text;
    assert (Text(rs[0]) + rest)[|Text(rs[0])|..] == rest;
  }

  lemma NothingHeard()
    ensures HeardRight([], [])
  {}

  lemma TurnRest(rs: seq<Stream>)
    requires InTurn(rs) && rs != [] && rs[0].phase.Done?
    ensures InTurn(rs[1..]) && (Settled(rs[1..]) <==> Settled(rs))
  {}

  lemma HearsPartly(rs: seq<Stream>, sent: string)
    requires rs != [] && InTurn(rs) && sent <= Text(rs[0]) + Wire(rs[1..]) && !(rs[0].phase.Done? && Text(rs[0]) <= sent)
    requires Wire(rs) == Text(rs[0]) + Wire(rs[1..])
    ensures HeardRight(rs, sent)
  {
    hide Text, Content, Listen;
    if !rs[0].phase.Done? {
      assert rs[1..] == [];
      assert Text(rs[0]) + [] == Text(rs[0]);
    }
    ListenPartly(rs[0], sent, Closes(rs));
  }

  lemma {:induction false} ChunksMalformed(ps: seq<string>, tail: string)
    requires [] !in ps && Decode(tail).Malformed?
    ensures Decode(Chunks(ps, tail)).Malformed?
  {
    hide Decode, ToChunk;
    if ps != [] {
      ChunksMalformed(ps[1..], tail);
      ChunkDecoded(ps[0], Chunks(ps[1..], tail));
    }
  }

  // A status line is no chunk size.
  lemma StatusLineMalformed(tail: string)
    ensures Decode(STATUS_LINE + tail).Malformed?
  {
    hide SizeOf;
    var line := "HTTP/1.1 200 OK";
    assert STATUS_LINE + tail == line + CRLF + tail;
    HttpRoundTrip.FindCrlfAt(line, tail);
    assert (STATUS_LINE + tail)[..|line|] == line;
  }

  lemma ListenTorn(st: Stream, tail: string, closes: seq<bool>)
    requires !st.phase.Done? && closes != [] && closes[0] == st.close
    ensures Listen(Text(st) + (STATUS_LINE + tail), closes) == Heard([], [], true)
  {
    hide Headers, Script, Decode, Chunks;
    var h, after := Headers(st.close), STATUS_LINE + tail;
    ChunksTail(Script(st), after);
    assert Text(st) + after == h + Chunks(Script(st), after);
    assert (h + Chunks(Script(st), after))[|h|..] == Chunks(Script(st), after);
    StatusLineMalformed(tail);
    ChunksMalformed(Script(st), after);
  }

  // A client that meets the headers of another reply inside a body can read no further.
  lemma {:induction false} HearsTorn(was: seq<Stream>, tail: string, closes: seq<bool>)
    requires InTurn(was) && !Settled(was) && |was| <= |closes|
    requires forall i :: 0 <= i < |was| ==> was[i].close == closes[i]
    ensures Listen(Wire(was) + (STATUS_LINE + tail), closes) == Heard(Contents(was[..|was| - 1]), [], true)
    decreases |was|
  {
    hide Text, Content, Listen, Decode;
    WireFront(was);
    var first, after := Text(was[0]), was[1..];
    if |was| == 1 {
      ListenTorn(was[0], tail, closes);
      assert first + [] == first;
    } else {
      HearsTorn(after, tail, closes[1..]);
      Regroup(first, Wire(after), STATUS_LINE + tail);
      ListenComplete(was[0], Wire(after) + (STATUS_LINE + tail), closes);
      assert Contents(was[..|was| - 1]) == [Content(was[0])] + Contents(after[..|after| - 1]);
    }
  }

  // ---------------------------------------------------------------- the promises

  // In every interleaving a connection is sent a beginning of its replies, one after another:
  // headers, status, then what upstream delivered, in the order the worker was given it.
  lemma InOrder(actions: seq<Action>, t: State, conn: nat)
    requires Reaches(START, actions, t) && conn !in t.overlapped
    ensures Sent(t.loop.executed, conn) <= Wire(RepliesOn(t, conn))
    ensures t.loop.executed == t.loop.queued ==> Sent(t.loop.executed, conn) == Wire(RepliesOn(t, conn))
  {
    hide Wire, Sent, Shut, InTurn, Closing, WellPhased;
    ReachableInv(actions, t);
    ExecutedFirst(t.loop);
    SentPrefix(t.loop.queued, |t.loop.executed|, conn);
    assert ConnInv(t, conn);
  }

  lemma ExecutedFirst(s: L.State<Functor>)
    requires L.Inv(s)
    ensures s.executed <= s.queued && s.queued[..|s.executed|] == s.executed
  {}

  lemma RepliesInTurn(t: State, conn: nat)
    requires Inv(t) && conn !in t.overlapped
    ensures InTurn(RepliesOn(t, conn)) && Sent(t.loop.queued, conn) == Wire(RepliesOn(t, conn))
  {
    hide WellPhased, InTurn, Wire, Sent;
    assert ConnInv(t, conn);
  }

  // So in every interleaving what a client has been sent is, for its reader, the contents of
  // the replies it was sent whole and a beginning of the next; all of them, once all are done
  // and sent.
  lemma ClientView(actions: seq<Action>, t: State, conn: nat)
    requires Reaches(START, actions, t) && conn !in t.overlapped
    ensures var rs, sent := RepliesOn(t, conn), Sent(t.loop.executed, conn);
      var h, n := Listen(sent, Closes(rs)), WholeIn(sent, rs);
      && !h.broken && h.bodies == Contents(rs)[..n]
      && h.more <= (if n < |rs| then Content(rs[n]) else [])
      && (n == |rs| <==> sent == Wire(rs) && Settled(rs))
  {
    hide Wire, Sent, Reaches, Listen, Content, Inv, InTurn, WholeIn, Settled;
    ReachableInv(actions, t);
    RepliesInTurn(t, conn);
    InOrder(actions, t, conn);
    Hears(RepliesOn(t, conn), Sent(t.loop.executed, conn));
  }

  // A connection's replies can be read if and only if each request came after the reply
  // before it was done.
  lemma ReadableIff(actions: seq<Action>, t: State, conn: nat)
    requires Reaches(START, actions, t) && t.loop.executed == t.loop.queued
    ensures Listen(Sent(t.loop.executed, conn), Closes(RepliesOn(t, conn))).broken <==> conn in t.overlapped
  {
    hide Sent, Reaches, Listen, Inv;
    ReachableInv(actions, t);
    ReadableAt(t, conn);
  }

  lemma ReadableAt(t: State, conn: nat)
    requires Inv(t) && t.loop.executed == t.loop.queued
    ensures Listen(Sent(t.loop.executed, conn), Closes(RepliesOn(t, conn))).broken <==> conn in t.overlapped
  {
    hide Wire, Sent, Listen, Content, Inv, InTurn, WholeIn, Settled, Contents;
    var rs, sent := RepliesOn(t, conn), Sent(t.loop.queued, conn);
    if conn in t.overlapped {
      var was := TornAt(t, conn);
      var tail := sent[|Wire(was) + STATUS_LINE|..];
      assert sent == Wire(was) + STATUS_LINE + tail;
      assert sent == Wire(was) + (STATUS_LINE + tail);
      HearsTorn(was, tail, Closes(rs));
    } else {
      RepliesInTurn(t, conn);
      Hears(rs, sent);
    }
  }

  lemma TornAt(t: State, conn: nat) returns (was: seq<Stream>)
    requires Inv(t) && conn in t.overlapped
    ensures InTurn(was) && !Settled(was) && SameAsked(was, RepliesOn(t, conn))
    ensures Wire(was) + STATUS_LINE <= Sent(t.loop.queued, conn)
  {
    hide WellPhased;
    assert ConnInv(t, conn);
    was := t.overlapped[conn];
  }

  // Such a run: two requests among the events of one poll, and the loop runs what they queued.
  lemma TwoAtOnce(conn: nat, kind: Kind, status: JsonText) returns (actions: seq<Action>, t: State)
    ensures Reaches(START, actions, t) && conn in t.overlapped && t.loop.executed == t.loop.queued
    ensures Listen(Sent(t.loop.executed, conn), Closes(RepliesOn(t, conn))).broken
  {
    hide Reaches, First, Listen, Sent;
    var ask := Request(conn, kind, false, status);
    var s1 := Next(START, LoopStep(L.BeginLoop));
    var s2 := Next(s1, LoopStep(L.TestQuit));
    var s3 := Next(s2, LoopStep(L.PollReturns(false)));
    var s4 := Next(s3, ask);
    var s5 := Next(s4, ask);
    actions, t := RunsBoth(s5, First(conn, false, status));
    actions := OneMore(s4, ask, actions, t);
    actions := OneMore(s3, ask, actions, t);
    actions := OneMore(s2, LoopStep(L.PollReturns(false)), actions, t);
    actions := OneMore(s1, LoopStep(L.TestQuit), actions, t);
    actions := OneMore(START, LoopStep(L.BeginLoop), actions, t);
    ReadableIff(actions, t, conn);
  }

  lemma RunsBoth(s: State, f: Functor) returns (actions: seq<Action>, t: State)
    requires s.loop == L.State(L.Handling(false), false, false, 0, [f, f], [], 0, [f, f], [], 0)
    ensures Reaches(s, actions, t) && t.loop.executed == t.loop.queued && t.overlapped == s.overlapped
  {
    hide Reaches;
    var s1 := Next(s, LoopStep(L.StartPending));
    var s2 := Next(s1, LoopStep(L.Swap));
    var s3 := Next(s2, LoopStep(L.RunNext));
    t := Next(s3, LoopStep(L.RunNext));
    NoMore(t);
    actions := OneMore(s3, LoopStep(L.RunNext), [], t);
    actions := OneMore(s2, LoopStep(L.RunNext), actions, t);
    actions := OneMore(s1, LoopStep(L.Swap), actions, t);
    actions := OneMore(s, LoopStep(L.StartPending), actions, t);
  }

  lemma NoMore(s: State)
    ensures Reaches(s, [], s)
  {}

  lemma OneMore(s: State, a: Action, more: seq<Action>, t: State) returns (all: seq<Action>)
    requires Enabled(s, a) && Reaches(Next(s, a), more, t)
    ensures Reaches(s, all, t)
  {
    all := [a] + more;
    assert all[1..] == more;
  }

  // The connection is shut down only behind a complete reply, and only if that was asked
  // for; and once the loop has run everything queued, it has been.
  lemma ShutdownIsLast(actions: seq<Action>, t: State, conn: nat)
    requires Reaches(START, actions, t) && conn !in t.overlapped && Shut(t.loop.executed, conn)
    ensures Closing(RepliesOn(t, conn)) && Sent(t.loop.executed, conn) == Wire(RepliesOn(t, conn))
  {
    hide Inv, Reaches;
    ReachableInv(actions, t);
    ShutInv(t, conn);
  }

  lemma ShutInv(t: State, conn: nat)
    requires Inv(t) && conn !in t.overlapped && Shut(t.loop.executed, conn)
    ensures Closing(RepliesOn(t, conn)) && Sent(t.loop.executed, conn) == Wire(RepliesOn(t, conn))
  {
    hide Wire, Sent, InTurn, Closing, WellPhased, Shut;
    ExecutedFirst(t.loop);
    assert ConnInv(t, conn);
  }

  lemma ShutdownHappens(actions: seq<Action>, t: State, conn: nat)
    requires Reaches(START, actions, t) && conn !in t.overlapped && t.loop.executed == t.loop.queued
    requires Closing(RepliesOn(t, conn))
    ensures Shut(t.loop.executed, conn)
  {
    hide Wire, Sent, InTurn, Closing, WellPhased, Shut;
    ReachableInv(actions, t);
    assert ConnInv(t, conn);
  }

  // What upstream handed to the callback, empty pieces included.
  function Delivered(steps: seq<Step>): string {
    if steps == [] then []
    else
      var step := steps[|steps| - 1];
      Delivered(steps[..|steps| - 1]) + if step.AgentBytes? then step.bytes else []
  }

  lemma {:induction false} DeliveredIsPayload(steps: seq<Step>)
    requires forall i :: 0 <= i < |steps| ==> steps[i].AgentBytes?
    ensures Flatten(AllPayloads(steps)) == Delivered(steps)
  {
    if steps != [] {
      var last := steps[|steps| - 1];
      DeliveredIsPayload(steps[..|steps| - 1]);
      FlattenAppend(AllPayloads(steps[..|steps| - 1]), Payloads(last));
      FlattenBytes(last);
    }
  }

  lemma FlattenBytes(step: Step)
    requires step.AgentBytes?
    ensures Flatten(Payloads(step)) == step.bytes
  {
    if step.bytes != [] { FlattenOne(step.bytes); }
  }

  // The agent route relays byte for byte: a finished reply decodes to the status event,
  // everything the upstream callback was handed, and an error event if upstream failed.
  lemma AgentReply(st: Stream)
    requires st.kind.Agent? && st.phase.Done? && Phased(st)
    ensures var n := |st.steps| - 1;
      Decode(Text(st)[|Headers(st.close)|..]) ==
        Body(SseEvent("status", st.status) + Delivered(st.steps)
             + (if st.steps[n].ok then [] else SseEvent("error", st.steps[n].error)), [])
  {
    hide Headers, Text, Decode, SseEvent, Script;
    CompleteDecodes(st, []);
    assert Text(st) + [] == Text(st);
    AgentScript(st);
  }

  lemma AgentScript(st: Stream)
    requires st.kind.Agent? && st.phase.Done? && Phased(st)
    ensures var n := |st.steps| - 1;
      Flatten(Script(st)) == SseEvent("status", st.status) + Delivered(st.steps)
        + if st.steps[n].ok then [] else SseEvent("error", st.steps[n].error)
  {
    hide SseEvent, Flatten, Script, AllPayloads, Payloads, Delivered;
    var n := |st.steps| - 1;
    var before, end := st.steps[..n], st.steps[n];
    ScriptLast(st);
    FlattenCons(SseEvent("status", st.status), AllPayloads(before) + Payloads(end));
    FlattenAppend(AllPayloads(before), Payloads(end));
    DeliveredIsPayload(before);
    DeliveredLast(st.steps);
    EndPayload(end);
    Regroup(SseEvent("status", st.status), Delivered(before), Flatten(Payloads(end)));
  }

  lemma ScriptLast(st: Stream)
    requires st.steps != []
    ensures var n := |st.steps| - 1;
      Script(st) == [SseEvent("status", st.status)] + (AllPayloads(st.steps[..n]) + Payloads(st.steps[n]))
  {
    hide SseEvent, Payloads;
  }

  lemma DeliveredLast(steps: seq<Step>)
    requires steps != [] && !steps[|steps| - 1].AgentBytes?
    ensures Delivered(steps) == Delivered(steps[..|steps| - 1])
  {}

  lemma EndPayload(end: Step)
    requires end.AgentEnd?
    ensures Flatten(Payloads(end)) == if end.ok then [] else SseEvent("error", end.error)
  {
    hide SseEvent;
    if !end.ok { FlattenOne(SseEvent("error", end.error)); }
  }

  // In every run that is what a finished agent reply has as its content.
  lemma AgentRelays(actions: seq<Action>, t: State, conn: nat, i: nat)
    requires Reaches(START, actions, t) && i < |RepliesOn(t, conn)|
    requires var st := RepliesOn(t, conn)[i]; st.kind.Agent? && st.phase.Done?
    ensures RepliesOn(t, conn)[i].steps != []
    ensures var st := RepliesOn(t, conn)[i];
      var end := st.steps[|st.steps| - 1];
      && end.AgentEnd?
      && Content(st) == SseEvent("status", st.status) + Delivered(st.steps)
           + if end.ok then [] else SseEvent("error", end.error)
  {
    hide Reaches, SseEvent, Delivered, Script, WholeInv, TornInv;
    ReachableInv(actions, t);
    assert ConnInv(t, conn) && WellPhased(RepliesOn(t, conn)[i]);
    AgentScript(RepliesOn(t, conn)[i]);
  }
}
