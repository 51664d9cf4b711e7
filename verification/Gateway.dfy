/**
 The streamed replies of StreamServer on the connections of TcpOutput, as one machine:
 running a functor calls send() and shutdown() of its connection on the loop's thread, and
 between functors the loop serves the sockets. The kernel answers each write as it likes,
 and a peer may close at any time.
 */
module Gateway {
  import opened Strings
  import L = EventLoop
  import S = StreamServer
  import T = TcpOutput

  datatype State = State(server: S.State, conns: map<nat, T.Conn>)

  const START := State(S.START, map[])

  datatype Action =
    | Accept(conn: nat, mark: nat)         // a new connection object
    | Socket(conn: nat, event: T.Action)       // the loop establishes, drains, closes or destroys a connection
    | Server(step: S.Action)               // a step of the loop or of a worker, other than running a functor
    | Run(ws: seq<T.WriteResult>)          // the next functor; ws: what the kernel answers to its sends

  // ---------------------------------------------------------------- what a functor does

  predicate Answers(sends: seq<string>, ws: seq<T.WriteResult>) {
    |ws| == |sends| && forall i :: 0 <= i < |ws| ==> T.Fits(ws[i], |sends[i]|)
  }

  function SendAll(c: T.Conn, sends: seq<string>, ws: seq<T.WriteResult>): T.Conn
    requires Answers(sends, ws)
    decreases |sends|
  {
    if sends == [] then c else SendAll(T.Send(c, sends[0], ws[0]), sends[1..], ws[1..])
  }

  function RunOn(c: T.Conn, f: S.Functor, ws: seq<T.WriteResult>): T.Conn
    requires f.Reply? && Answers(f.sends, ws)
  {
    var c1 := SendAll(c, f.sends, ws);
    if f.shutdown then T.Shutdown(c1) else c1
  }

  // ---------------------------------------------------------------- steps

  // Read events reach the server from connectEstablished until the connection closes.
  predicate Reads(c: T.Conn) { c.state.Connected? || c.state.Disconnecting? }

  predicate Enabled(g: State, a: Action) {
    match a
    case Accept(conn, _) => conn !in g.conns
    case Socket(conn, b) =>
      conn in g.conns && (b.Establish? || b.WriteReady? || b.Close? || b.Destroy?) && T.Enabled(g.conns[conn], b)
    case Server(b) =>
      && S.Enabled(g.server, b) && b != S.LoopStep(L.RunNext)
      && (b.Request? ==> b.conn in g.conns && Reads(g.conns[b.conn]))
    case Run(ws) =>
      && S.Enabled(g.server, S.LoopStep(L.RunNext))
      && var f := g.server.loop.batch[0]; f.Reply? ==> f.conn in g.conns && Answers(f.sends, ws)
  }

  function Next(g: State, a: Action): State
    requires Enabled(g, a)
  {
    match a
    case Accept(conn, mark) => g.(conns := g.conns[conn := T.Fresh(mark)])
    case Socket(conn, b) => g.(conns := g.conns[conn := T.Next(g.conns[conn], b)])
    case Server(b) => g.(server := S.Next(g.server, b))
    case Run(ws) =>
      var f := g.server.loop.batch[0];
      State(S.Next(g.server, S.LoopStep(L.RunNext)),
            if f.Reply? then g.conns[f.conn := RunOn(g.conns[f.conn], f, ws)] else g.conns)
  }

  ghost predicate Reaches(g: State, actions: seq<Action>, t: State)
    decreases |actions|
  {
    if actions == [] then t == g
    else Enabled(g, actions[0]) && Reaches(Next(g, actions[0]), actions[1..], t)
  }

  // ---------------------------------------------------------------- the invariant

  // The connection itself is in order, and only its own loop shuts it down.
  ghost predicate Sound(c: T.Conn) { T.Inv(c) && T.OwnThread(c) && c.sending.None? }

  // What the connection has accepted of what functors handed it: everything while it is
  // connected; and once it is shut down, there is no more.
  ghost predicate Linked(s: S.State, conn: nat, c: T.Conn) {
    var sent := S.Sent(s.loop.executed, conn);
    && (c.state.Connecting? ==> S.RepliesOn(s, conn) == [])
    && c.accepted <= sent
    && (c.state.Connected? ==> c.accepted == sent)
    && ((c.state.Disconnecting? || c.fins != []) && conn !in s.overlapped ==>
          S.Shut(s.loop.executed, conn) && c.accepted == sent)
  }

  // Whoever has a functor has a reply, and whoever has a reply a connection.
  ghost predicate Known(g: State) {
    && (forall i :: 0 <= i < |g.server.loop.queued| && g.server.loop.queued[i].Reply? ==>
          S.RepliesOn(g.server, g.server.loop.queued[i].conn) != [])
    && forall conn :: S.RepliesOn(g.server, conn) != [] ==> conn in g.conns
  }

  ghost predicate Inv(g: State) {
    && S.Inv(g.server) && Known(g)
    && forall conn :: conn in g.conns ==> Sound(g.conns[conn]) && Linked(g.server, conn, g.conns[conn])
  }

  // ---------------------------------------------------------------- connections

  lemma SendSound(c: T.Conn, data: string, w: T.WriteResult)
    requires Sound(c) && T.Fits(w, |data|)
    ensures var r := T.Send(c, data, w);
      && Sound(r) && r.state == c.state && r.fins == c.fins
      && r.accepted == c.accepted + if c.state.Connected? then data else []
  {
    hide T.Inv, T.OwnThread, T.SendInLoop;
    if c.state.Connected? {
      var c1 := T.Next(c, T.SendTest(data));
      T.NextKeeps(c, T.SendTest(data));
      T.OwnThreadKeeps(c, T.SendTest(data));
      T.NextKeeps(c1, T.SendRuns(w));
      T.OwnThreadKeeps(c1, T.SendRuns(w));
      SendRunsRest(c1.(sending := T.None), data, w);
    }
  }

  lemma SendRunsRest(c: T.Conn, data: string, w: T.WriteResult)
    requires T.Fits(w, |data|)
    ensures var r := T.SendInLoop(c, data, w);
      r.state == c.state && r.fins == c.fins && r.accepted == c.accepted && r.sending == c.sending
  {}

  lemma {:induction false} SendAllSound(c: T.Conn, sends: seq<string>, ws: seq<T.WriteResult>)
    requires Sound(c) && Answers(sends, ws)
    ensures var r := SendAll(c, sends, ws);
      && Sound(r) && r.state == c.state && r.fins == c.fins
      && r.accepted == c.accepted + if c.state.Connected? then Flatten(sends) else []
    decreases |sends|
  {
    hide Sound, T.Send;
    if sends != [] {
      var c1 := T.Send(c, sends[0], ws[0]);
      SendSound(c, sends[0], ws[0]);
      SendAllSound(c1, sends[1..], ws[1..]);
      Regroup(c.accepted, sends[0], Flatten(sends[1..]));
    }
  }

  lemma ShutdownSound(c: T.Conn)
    requires Sound(c)
    ensures var r := T.Shutdown(c);
      && Sound(r) && r.accepted == c.accepted
      && if c.state.Connected? then r.state.Disconnecting? else r == c
  {
    hide T.Inv, T.OwnThread;
    T.NextKeeps(c, T.ShutdownHere);
    T.OwnThreadKeeps(c, T.ShutdownHere);
  }

  lemma RunOnSound(c: T.Conn, f: S.Functor, ws: seq<T.WriteResult>)
    requires Sound(c) && f.Reply? && Answers(f.sends, ws)
    ensures var r := RunOn(c, f, ws);
      && Sound(r) && r.accepted == c.accepted + (if c.state.Connected? then Flatten(f.sends) else [])
      && (if c.state.Connected? && f.shutdown then r.state.Disconnecting? else r.state == c.state && r.fins == c.fins)
  {
    hide Sound, SendAll, T.Shutdown, Flatten;
    SendAllSound(c, f.sends, ws);
    ShutdownSound(SendAll(c, f.sends, ws));
  }

  lemma SocketSound(c: T.Conn, b: T.Action)
    requires Sound(c) && T.Enabled(c, b) && (b.Establish? || b.WriteReady? || b.Close? || b.Destroy?)
    ensures var r := T.Next(c, b);
      && Sound(r) && r.accepted == c.accepted
      && (r.state.Connected? ==> c.state.Connected? || c.state.Connecting?)
      && (r.state.Connecting? ==> c.state.Connecting?)
      && (r.state.Disconnecting? || r.fins != [] ==> c.state.Disconnecting? || c.fins != [])
  {
    hide T.Inv, T.OwnThread;
    T.NextKeeps(c, b);
    T.OwnThreadKeeps(c, b);
  }

  lemma NoFins(c: T.Conn)
    requires Sound(c) && (c.state.Connected? || c.state.Connecting?)
    ensures c.fins == []
  {}

  // ---------------------------------------------------------------- each step keeps it

  lemma AcceptKeeps(g: State, conn: nat, mark: nat)
    requires Inv(g) && Enabled(g, Accept(conn, mark))
    ensures Inv(Next(g, Accept(conn, mark)))
  {
    hide S.Inv;
    assert Sound(T.Fresh(mark));
    hide Sound;
    assert Linked(g.server, conn, T.Fresh(mark));
  }

  // A connection without replies has been handed nothing.
  lemma NothingSent(s: S.State, conn: nat)
    requires S.Inv(s) && S.RepliesOn(s, conn) == []
    ensures S.Sent(s.loop.executed, conn) == [] && conn !in s.overlapped
  {
    hide S.WellPhased, S.Sent, S.Shut;
    assert S.ConnInv(s, conn);
    S.ExecutedFirst(s.loop);
    S.SentPrefix(s.loop.queued, |s.loop.executed|, conn);
  }

  lemma SocketKeeps(g: State, conn: nat, b: T.Action)
    requires Inv(g) && Enabled(g, Socket(conn, b))
    ensures Inv(Next(g, Socket(conn, b)))
  {
    hide S.Inv, Sound, T.Next, S.Sent, S.Shut;
    var c := g.conns[conn];
    SocketSound(c, b);
    if c.state.Connecting? {
      NothingSent(g.server, conn);
    }
    assert Linked(g.server, conn, c);
    assert Linked(g.server, conn, T.Next(c, b));
  }

  // A step of the server that runs no functor.
  lemma ServerStep(s: S.State, b: S.Action)
    requires S.Enabled(s, b) && b != S.LoopStep(L.RunNext)
    ensures var t := S.Next(s, b);
      && t.loop.executed == s.loop.executed
      && (forall conn :: conn in s.overlapped ==> conn in t.overlapped)
      && forall conn :: (S.RepliesOn(s, conn) == [] && !(b.Request? && b.conn == conn)) <==> S.RepliesOn(t, conn) == []
  {
    hide S.Emitted, S.First, S.Advance;
  }

  lemma ServerQueue(s: S.State, b: S.Action) returns (more: seq<S.Functor>)
    requires S.Enabled(s, b)
    ensures S.Next(s, b).loop.queued == s.loop.queued + more
    ensures forall i :: 0 <= i < |more| && more[i].Reply? ==> S.RepliesOn(S.Next(s, b), more[i].conn) != []
  {
    hide S.Payloads, S.EachChunk, S.Advance, S.Headers;
    if b.LoopStep? {
      more := if b.a.HandlerQueues? || b.a.FunctorQueues? || b.a.OtherQueues? then [b.a.f] else [];
    } else if b.Request? {
      more := [S.First(b.conn, b.close, b.status)];
    } else if b.Work? && S.Queues(b.step) {
      more := [S.Emitted(b.conn, S.RepliesOn(s, b.conn)[b.i].close, b.step)];
    } else {
      more := [];
    }
  }

  lemma ServerKnown(g: State, b: S.Action)
    requires Known(g) && Enabled(g, Server(b))
    ensures Known(Next(g, Server(b)))
  {
    hide S.Next, S.Enabled;
    ServerStep(g.server, b);
    var more := ServerQueue(g.server, b);
  }

  lemma ServerKeeps(g: State, b: S.Action)
    requires Inv(g) && Enabled(g, Server(b))
    ensures Inv(Next(g, Server(b)))
  {
    hide S.Inv, Known, Sound, S.Sent, S.Shut, S.Next, S.Enabled;
    S.NextKeeps(g.server, b);
    ServerKnown(g, b);
    ServerStep(g.server, b);
    var t := Next(g, Server(b));
    forall conn | conn in t.conns ensures Linked(t.server, conn, t.conns[conn]) {
      assert Linked(g.server, conn, g.conns[conn]);
    }
  }

  // The connection the functor belongs to.
  lemma RunLinked(s: S.State, t: S.State, c: T.Conn, f: S.Functor, ws: seq<T.WriteResult>)
    requires S.Inv(s) && S.Inv(t) && t == s.(loop := t.loop) && t.loop.executed == s.loop.executed + [f]
    requires f.Reply? && Answers(f.sends, ws) && S.RepliesOn(s, f.conn) != []
    requires Sound(c) && Linked(s, f.conn, c)
    ensures Linked(t, f.conn, RunOn(c, f, ws))
  {
    hide S.Inv, Sound, S.Sent, S.Shut, RunOn, S.Closing, Flatten;
    RunOnSound(c, f, ws);
    S.SentSnoc(s.loop.executed, f, f.conn);
    S.ShutSnoc(s.loop.executed, f, f.conn);
    if c.state.Connected? {
      NoFins(c);
    } else if (c.state.Disconnecting? || c.fins != []) && f.conn !in s.overlapped {
      S.ShutInv(s, f.conn);
      S.ShutInv(t, f.conn);
    }
  }

  lemma RunElsewhere(s: S.State, t: S.State, c: T.Conn, f: S.Functor, conn: nat)
    requires t == s.(loop := t.loop) && t.loop.executed == s.loop.executed + [f]
    requires !(f.Reply? && f.conn == conn) && Linked(s, conn, c)
    ensures Linked(t, conn, c)
  {
    hide S.Sent, S.Shut;
    S.SentSnoc(s.loop.executed, f, conn);
    S.ShutSnoc(s.loop.executed, f, conn);
  }

  lemma NextFunctor(g: State)
    requires Inv(g) && S.Enabled(g.server, S.LoopStep(L.RunNext))
    ensures var f := g.server.loop.batch[0];
      f.Reply? ==> S.RepliesOn(g.server, f.conn) != [] && f.conn in g.conns
  {
    hide Sound, Linked, S.ConnInv;
    var l := g.server.loop;
    assert l.queued == l.executed + l.batch + l.pending;
    assert l.queued[|l.executed|] == l.batch[0];
  }

  // So running the next functor waits for nothing but the kernel's answers.
  lemma RunEnabled(actions: seq<Action>, g: State, ws: seq<T.WriteResult>)
    requires Reaches(START, actions, g) && S.Enabled(g.server, S.LoopStep(L.RunNext))
    requires var f := g.server.loop.batch[0]; f.Reply? ==> Answers(f.sends, ws)
    ensures Enabled(g, Run(ws))
  {
    hide Inv, Reaches;
    ReachableInv(actions, g);
    NextFunctor(g);
  }

  lemma RunKeeps(g: State, ws: seq<T.WriteResult>)
    requires Inv(g) && Enabled(g, Run(ws))
    ensures Inv(Next(g, Run(ws)))
  {
    hide S.Inv, Sound, Linked, RunOn;
    var f, t := g.server.loop.batch[0], Next(g, Run(ws));
    NextFunctor(g);
    S.NextKeeps(g.server, S.LoopStep(L.RunNext));
    if f.Reply? {
      RunOnSound(g.conns[f.conn], f, ws);
      RunLinked(g.server, t.server, g.conns[f.conn], f, ws);
    }
    forall conn | conn in t.conns ensures Sound(t.conns[conn]) && Linked(t.server, conn, t.conns[conn]) {
      if !(f.Reply? && f.conn == conn) {
        RunElsewhere(g.server, t.server, g.conns[conn], f, conn);
      }
    }
  }

  lemma NextKeeps(g: State, a: Action)
    requires Inv(g) && Enabled(g, a)
    ensures Inv(Next(g, a))
  {
    hide Inv, Enabled, Next;
    match a
    case Accept(conn, mark) => AcceptKeeps(g, conn, mark);
    case Socket(conn, b) => SocketKeeps(g, conn, b);
    case Server(b) => ServerKeeps(g, b);
    case Run(ws) => RunKeeps(g, ws);
  }

  lemma {:induction false} ReachesKeeps(g: State, actions: seq<Action>, t: State)
    requires Inv(g) && Reaches(g, actions, t)
    ensures Inv(t)
    decreases |actions|
  {
    hide Inv, Enabled, Next;
    if actions != [] {
      NextKeeps(g, actions[0]);
      ReachesKeeps(Next(g, actions[0]), actions[1..], t);
    }
  }

  lemma StartInv()
    ensures Inv(START)
  {
    hide S.Inv;
    S.StartInv();
    assert forall conn :: S.RepliesOn(S.START, conn) == [];
  }

  lemma ReachableInv(actions: seq<Action>, g: State)
    requires Reaches(START, actions, g)
    ensures Inv(g)
  {
    hide Inv;
    StartInv();
    ReachesKeeps(START, actions, g);
  }

  // ---------------------------------------------------------------- what the kernel answered

  // No functor of conn has met a broken connection.
  ghost predicate NoFault(g: State, actions: seq<Action>, conn: nat)
    decreases |actions|
  {
    actions != [] && Enabled(g, actions[0]) ==>
      (actions[0].Run? && Runs(g, conn) ==> T.Fault !in actions[0].ws) && NoFault(Next(g, actions[0]), actions[1..], conn)
  }

  // The next functor is one of conn's.
  predicate Runs(g: State, conn: nat) {
    g.server.loop.batch != [] && g.server.loop.batch[0].Reply? && g.server.loop.batch[0].conn == conn
  }

  lemma SendLoses(c: T.Conn, data: string, w: T.WriteResult)
    requires T.Fits(w, |data|) && !w.Fault?
    ensures T.Send(c, data, w).lost == c.lost
  {}

  lemma {:induction false} SendAllLoses(c: T.Conn, sends: seq<string>, ws: seq<T.WriteResult>)
    requires Answers(sends, ws) && T.Fault !in ws
    ensures SendAll(c, sends, ws).lost == c.lost
    decreases |sends|
  {
    hide T.Send;
    if sends != [] {
      assert ws[0] in ws && ws == [ws[0]] + ws[1..];
      SendLoses(c, sends[0], ws[0]);
      SendAllLoses(T.Send(c, sends[0], ws[0]), sends[1..], ws[1..]);
    }
  }

  lemma RunLoses(c: T.Conn, f: S.Functor, ws: seq<T.WriteResult>)
    requires f.Reply? && Answers(f.sends, ws) && T.Fault !in ws
    ensures RunOn(c, f, ws).lost == c.lost
  {
    hide SendAll;
    SendAllLoses(c, f.sends, ws);
  }

  lemma SocketLoses(c: T.Conn, b: T.Action)
    requires T.Enabled(c, b) && (b.Establish? || b.WriteReady? || b.Close? || b.Destroy?)
    ensures T.Next(c, b).lost == c.lost
  {}

  // What conn has lost; nothing before there is such a connection.
  function LostOn(g: State, conn: nat): nat {
    if conn in g.conns then g.conns[conn].lost else 0
  }

  lemma StepLoses(g: State, a: Action, conn: nat)
    requires Enabled(g, a) && (a.Run? && Runs(g, conn) ==> T.Fault !in a.ws)
    ensures LostOn(Next(g, a), conn) == LostOn(g, conn)
  {
    hide RunOn, S.Next, T.Next, S.Enabled, T.Enabled;
    if a.Socket? {
      SocketLoses(g.conns[a.conn], a.event);
    } else if a.Run? {
      RunsNext(g, a.ws);
      if Runs(g, conn) { RunLoses(g.conns[conn], g.server.loop.batch[0], a.ws); }
    }
  }

  lemma RunsNext(g: State, ws: seq<T.WriteResult>)
    requires Enabled(g, Run(ws))
    ensures g.server.loop.batch != []
  {}

  // A connection whose functors met no fault has lost nothing.
  lemma {:induction false} NothingLost(g: State, actions: seq<Action>, t: State, conn: nat)
    requires Reaches(g, actions, t) && NoFault(g, actions, conn)
    ensures LostOn(t, conn) == LostOn(g, conn)
    decreases |actions|
  {
    hide Enabled, Next, Runs, LostOn;
    if actions != [] {
      StepLoses(g, actions[0], conn);
      NothingLost(Next(g, actions[0]), actions[1..], t, conn);
    }
  }

  // ---------------------------------------------------------------- the promises

  // What the kernel has taken and what waits, when no faulty write dropped anything.
  lemma TakenIsAccepted(g: State, conn: nat)
    requires Inv(g) && conn in g.conns && g.conns[conn].lost == 0
    ensures var c := g.conns[conn]; c.taken + c.output == c.accepted == c.kept
  {
    hide S.Inv, Linked, T.OwnThread;
    var c := g.conns[conn];
    assert Sound(c);
    assert c.kept + [] == c.kept;
  }

  lemma SentInTurn(g: State, conn: nat)
    requires Inv(g) && conn !in g.server.overlapped
    ensures var rs, sent := S.RepliesOn(g.server, conn), S.Sent(g.server.loop.executed, conn);
      && S.InTurn(rs) && sent <= S.Wire(rs)
      && (g.server.loop.executed == g.server.loop.queued ==> sent == S.Wire(rs))
  {
    hide Known, Linked, Sound, S.Sent, S.Shut, S.Wire, S.WellPhased, S.InTurn, S.Closing;
    var l := g.server.loop;
    assert S.ConnInv(g.server, conn);
    S.ExecutedFirst(l);
    S.SentPrefix(l.queued, |l.executed|, conn);
  }

  // In every run of loop, workers, kernel and peers, however writes are split and delayed,
  // the bytes the kernel has taken are a beginning of the replies, unless it answered a write
  // of this connection with a fault, and a client that has
  // received them has the contents of those that are whole and a beginning of the next.
  lemma ClientSees(actions: seq<Action>, g: State, conn: nat)
    requires Reaches(START, actions, g) && conn in g.conns && conn !in g.server.overlapped
    requires NoFault(START, actions, conn)
    ensures var rs, taken := S.RepliesOn(g.server, conn), g.conns[conn].taken;
      taken <= S.Wire(rs) && S.HeardRight(rs, taken)
  {
    hide Reaches, NoFault, S.Wire, S.HeardRight, S.Sent, S.Shut, Known, Sound, S.Inv, S.InTurn;
    ReachableInv(actions, g);
    var c := g.conns[conn];
    NothingLost(START, actions, g, conn);
    TakenIsAccepted(g, conn);
    SentInTurn(g, conn);
    assert Linked(g.server, conn, c);
    S.Hears(S.RepliesOn(g.server, conn), c.taken);
  }

  // With nothing left to run or to write, a connection still open has passed on every reply
  // whole.
  lemma AllDelivered(actions: seq<Action>, g: State, conn: nat)
    requires Reaches(START, actions, g) && conn in g.conns && conn !in g.server.overlapped
    requires NoFault(START, actions, conn) && g.conns[conn].output == [] && !g.conns[conn].state.Disconnected?
    requires g.server.loop.executed == g.server.loop.queued
    ensures g.conns[conn].taken == S.Wire(S.RepliesOn(g.server, conn))
  {
    hide Reaches, NoFault, S.Wire, S.Sent, S.Shut, Known, Sound, S.Inv, S.InTurn;
    ReachableInv(actions, g);
    var c := g.conns[conn];
    NothingLost(START, actions, g, conn);
    TakenIsAccepted(g, conn);
    SentInTurn(g, conn);
    assert Linked(g.server, conn, c);
    if c.state.Connecting? {
      NothingSent(g.server, conn);
    }
  }

  // There the client can read what it got if and only if each of its requests came after the
  // reply before it was done.
  lemma ReadableIff(actions: seq<Action>, g: State, conn: nat)
    requires Reaches(START, actions, g) && conn in g.conns
    requires NoFault(START, actions, conn) && g.conns[conn].output == [] && g.conns[conn].state.Connected?
    requires g.server.loop.executed == g.server.loop.queued
    ensures S.Listen(g.conns[conn].taken, S.Closes(S.RepliesOn(g.server, conn))).broken <==> conn in g.server.overlapped
  {
    hide Reaches, NoFault, S.Wire, S.HeardRight, S.Sent, S.Shut, Known, Sound, S.Inv, S.InTurn, S.Listen;
    ReachableInv(actions, g);
    NothingLost(START, actions, g, conn);
    TakenIsAccepted(g, conn);
    assert Linked(g.server, conn, g.conns[conn]);
    assert g.conns[conn].taken + [] == g.conns[conn].taken;
    S.ReadableAt(g.server, conn);
  }

  // Every shutdownWrite comes on an open connection, behind the last byte of a reply that
  // was to close it; unless a write failed, the kernel had all replies by then, and a client
  // that reads them has the contents of every one.
  lemma EndToEnd(actions: seq<Action>, g: State, conn: nat, fin: T.Fin)
    requires Reaches(START, actions, g) && conn in g.conns && conn !in g.server.overlapped
    requires fin in g.conns[conn].fins
    ensures var c, rs := g.conns[conn], S.RepliesOn(g.server, conn);
      !fin.closed && fin.taken == c.kept && S.Closing(rs) &&
      (NoFault(START, actions, conn) ==>
         fin.taken == S.Wire(rs) && S.Listen(fin.taken, S.Closes(rs)) == S.Heard(S.Contents(rs), [], false))
  {
    hide Reaches, NoFault, S.Wire, S.Sent, S.Shut, Known, S.Inv, S.InTurn, S.HeardRight, S.Listen, S.Content;
    ReachableInv(actions, g);
    var c, rs := g.conns[conn], S.RepliesOn(g.server, conn);
    FinSound(c, fin);
    assert Linked(g.server, conn, c);
    S.ShutInv(g.server, conn);
    if NoFault(START, actions, conn) {
      NothingLost(START, actions, g, conn);
      TakenIsAccepted(g, conn);
      SentInTurn(g, conn);
      S.Hears(rs, fin.taken);
      HeardAll(rs, fin.taken);
    }
  }

  lemma FinSound(c: T.Conn, fin: T.Fin)
    requires Sound(c) && fin in c.fins
    ensures !fin.closed && fin.taken == c.taken == c.kept && c.output == []
  {
    assert c.taken + [] == c.taken;
  }

  lemma HeardAll(rs: seq<S.Stream>, sent: string)
    requires S.HeardRight(rs, sent) && sent == S.Wire(rs) && S.Settled(rs)
    ensures S.Listen(sent, S.Closes(rs)) == S.Heard(S.Contents(rs), [], false)
  {
    hide S.Wire, S.Listen, S.Content, S.WholeIn;
    assert S.Contents(rs)[..|rs|] == S.Contents(rs);
  }
}
