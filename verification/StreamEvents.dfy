/**
 What the replies of StreamServer are to a client that reads them as event streams, by the
 reader of EventSource; and what their header block announces.
 */
module StreamEvents {
  import opened Strings
  import opened StreamServer
  import ES = EventSource
  import R = HttpRoundTrip

  // ---------------------------------------------------------------- what a chat has to tell

  function Deltas(jsons: seq<JsonText>): seq<ES.Event> {
    if jsons == [] then [] else [ES.Event("delta", jsons[0])] + Deltas(jsons[1..])
  }

  // The events a step of a chat has to reach the client with.
  function Told(step: Step): seq<ES.Event> {
    match step
    case Thinking(json) => [ES.Event("status", json)]
    case Delta(content, json) => if content == "" then [] else [ES.Event("delta", json)]
    case ChatEnd(Cached(status, pieces, done)) => [ES.Event("status", status)] + Deltas(pieces) + [ES.Event("done", done)]
    case ChatEnd(Answered(done)) => [ES.Event("done", done)]
    case ChatEnd(MissingMessage(json)) => [ES.Event("error", json)]
    case ChatEnd(Unavailable(json)) => [ES.Event("error", json)]
    case ChatEnd(Threw(json)) => [ES.Event("error", json)]
    case _ => []
  }

  function AllTold(steps: seq<Step>): seq<ES.Event> {
    if steps == [] then [] else AllTold(steps[..|steps| - 1]) + Told(steps[|steps| - 1])
  }

  // ---------------------------------------------------------------- writing events

  // Events one after another, each as two fields and an empty line.
  function Written(es: seq<ES.Event>): string {
    if es == [] then ""
    else "event: " + es[0].name + "\n" + ("data: " + es[0].data + "\n" + ("\n" + Written(es[1..])))
  }

  predicate OneLiners(es: seq<ES.Event>) { forall i :: 0 <= i < |es| ==> ES.OneLine(es[i].name) && ES.OneLine(es[i].data) }

  lemma {:induction false} WrittenRead(es: seq<ES.Event>)
    requires OneLiners(es)
    ensures ES.Events(Written(es)) == es
  {
    hide ES.Read, ES.OneLine;
    if es == [] {
      NothingRead();
    } else {
      WrittenRead(es[1..]);
      ES.EventRead(es[0].name, es[0].data, Written(es[1..]));
      assert es == [es[0]] + es[1..];
    }
  }

  lemma NothingRead()
    ensures ES.Events("") == []
  {}

  lemma NothingWritten()
    ensures Written([]) == ""
  {}

  lemma {:induction false} WrittenAppend(a: seq<ES.Event>, b: seq<ES.Event>)
    ensures Written(a + b) == Written(a) + Written(b)
  {
    if a == [] {
      assert a + b == b;
    } else {
      WrittenAppend(a[1..], b);
      assert (a + b)[1..] == a[1..] + b;
      Four("event: " + a[0].name + "\n", "data: " + a[0].data + "\n", Written(a[1..]), Written(b));
    }
  }

  lemma Four(a: string, b: string, c: string, d: string)
    ensures a + (b + ("\n" + (c + d))) == a + (b + ("\n" + c)) + d
  {}

  lemma WrittenOne(name: string, json: JsonText)
    ensures Written([ES.Event(name, json)]) == SseEvent(name, json)
  {
    assert [ES.Event(name, json)][1..] == [];
    var head, data := "event: " + name + "\n", "data: " + json;
    assert head + (data + "\n" + ("\n" + "")) == head + data + ("\n" + "\n");
    assert head + data + ("\n" + "\n") == head + "data: " + json + "\n\n";
  }

  lemma OneTold(name: string, json: JsonText)
    ensures Flatten([SseEvent(name, json)]) == Written([ES.Event(name, json)])
  {
    hide SseEvent, Written;
    FlattenOne(SseEvent(name, json));
    WrittenOne(name, json);
  }

  // ---------------------------------------------------------------- the payloads of a chat

  lemma {:induction false} DeltasWritten(jsons: seq<JsonText>)
    ensures Flatten(Events("delta", jsons)) == Written(Deltas(jsons)) && OneLiners(Deltas(jsons))
  {
    hide SseEvent, Written;
    if jsons == [] {
      NothingWritten();
    } else {
      DeltasWritten(jsons[1..]);
      FlattenCons(SseEvent("delta", jsons[0]), Events("delta", jsons[1..]));
      WrittenOne("delta", jsons[0]);
      WrittenAppend([ES.Event("delta", jsons[0])], Deltas(jsons[1..]));
    }
  }

  lemma CachedTold(status: JsonText, pieces: seq<JsonText>, done: JsonText)
    ensures Flatten([SseEvent("status", status)] + Events("delta", pieces) + [SseEvent("done", done)]) ==
      Written([ES.Event("status", status)] + Deltas(pieces) + [ES.Event("done", done)])
  {
    hide SseEvent, Written, Flatten, Events, Deltas;
    var a, b, c := [SseEvent("status", status)], Events("delta", pieces), [SseEvent("done", done)];
    var x, y, z := [ES.Event("status", status)], Deltas(pieces), [ES.Event("done", done)];
    FlattenAppend(a + b, c);
    FlattenAppend(a, b);
    WrittenAppend(x + y, z);
    WrittenAppend(x, y);
    OneTold("status", status);
    DeltasWritten(pieces);
    OneTold("done", done);
  }

  lemma StepTold(step: Step)
    requires !step.AgentBytes? && !step.AgentEnd?
    ensures Flatten(Payloads(step)) == Written(Told(step)) && OneLiners(Told(step))
  {
    hide SseEvent, Events, Deltas, Written;
    match step
    case Thinking(json) => OneTold("status", json);
    case Delta(content, json) => if content == "" { NothingWritten(); } else { OneTold("delta", json); }
    case ChatEnd(Cached(status, pieces, done)) => CachedTold(status, pieces, done); DeltasWritten(pieces);
    case ChatEnd(Answered(done)) => OneTold("done", done);
    case ChatEnd(MissingMessage(json)) => OneTold("error", json);
    case ChatEnd(Unavailable(json)) => OneTold("error", json);
    case ChatEnd(Threw(json)) => OneTold("error", json);
  }

  lemma {:induction false} StepsTold(steps: seq<Step>)
    requires forall i :: 0 <= i < |steps| ==> !steps[i].AgentBytes? && !steps[i].AgentEnd?
    ensures Flatten(AllPayloads(steps)) == Written(AllTold(steps)) && OneLiners(AllTold(steps))
  {
    hide Payloads, Told, Written;
    if steps == [] {
      NothingWritten();
    } else {
      var before, last := steps[..|steps| - 1], steps[|steps| - 1];
      StepsTold(before);
      StepTold(last);
      FlattenAppend(AllPayloads(before), Payloads(last));
      WrittenAppend(AllTold(before), Told(last));
    }
  }

  lemma ChatTold(st: Stream)
    requires st.kind.Chat? && st.phase.Done? && Phased(st)
    ensures ES.Events(Content(st)) == [ES.Event("status", st.status)] + AllTold(st.steps)
  {
    hide SseEvent, Written, ES.Read, AllTold, AllPayloads, Flatten;
    var first := [ES.Event("status", st.status)];
    StepsTold(st.steps);
    FlattenCons(SseEvent("status", st.status), AllPayloads(st.steps));
    WrittenOne("status", st.status);
    WrittenAppend(first, AllTold(st.steps));
    WrittenRead(first + AllTold(st.steps));
  }

  // In every run a chat reply that is done reads, as an event stream, as its first status and
  // then what its worker had to tell: that the model is thinking, one delta for each non-empty
  // piece of the answer in the order given, and the end; or a cached answer piece by piece.
  lemma ChatRelays(actions: seq<Action>, t: State, conn: nat, i: nat)
    requires Reaches(START, actions, t) && i < |RepliesOn(t, conn)|
    requires var st := RepliesOn(t, conn)[i]; st.kind.Chat? && st.phase.Done?
    ensures var st := RepliesOn(t, conn)[i];
      var n := |st.steps| - 1;
      && ES.Events(Content(st)) == [ES.Event("status", st.status)] + AllTold(st.steps)
      && n >= 0 && st.steps[n].ChatEnd?
      && forall k :: 0 <= k < n ==> if k == 0 then st.steps[k].Thinking? else st.steps[k].Delta?
  {
    hide Reaches, AllTold, Inv, Phased, Content, RepliesOn;
    ReachableInv(actions, t);
    ReplyPhased(t, conn, i);
    DoneShape(RepliesOn(t, conn)[i]);
    ChatTold(RepliesOn(t, conn)[i]);
  }

  lemma ReplyPhased(t: State, conn: nat, i: nat)
    requires Inv(t) && i < |RepliesOn(t, conn)|
    ensures Phased(RepliesOn(t, conn)[i])
  {
    hide WholeInv, TornInv, Phased;
    assert ConnInv(t, conn) && WellPhased(RepliesOn(t, conn)[i]);
  }

  lemma DoneShape(st: Stream)
    requires st.kind.Chat? && st.phase.Done? && Phased(st)
    ensures var n := |st.steps| - 1;
      && n >= 0 && st.steps[n].ChatEnd?
      && forall k :: 0 <= k < n ==> if k == 0 then st.steps[k].Thinking? else st.steps[k].Delta?
  {}

  // ---------------------------------------------------------------- the header block

  lemma {:induction false} FiveFields(a: R.Field, b: R.Field, c: R.Field, d: R.Field, e: R.Field)
    ensures R.PrintFields([a, b, c, d, e], "") ==
      R.FieldLine(a) + "\r\n" + (R.FieldLine(b) + "\r\n" + (R.FieldLine(c) + "\r\n" +
        (R.FieldLine(d) + "\r\n" + (R.FieldLine(e) + "\r\n" + ("\r\n" + "")))))
  {
    hide R.FieldLine, R.PrintFields;
    OneField(a, [b, c, d, e]);
    OneField(b, [c, d, e]);
    OneField(c, [d, e]);
    OneField(d, [e]);
    OneField(e, []);
    assert [a] + [b, c, d, e] == [a, b, c, d, e] && [b] + [c, d, e] == [b, c, d, e];
    assert [c] + [d, e] == [c, d, e] && [d] + [e] == [d, e] && [e] + [] == [e];
  }

  lemma OneField(f: R.Field, more: seq<R.Field>)
    ensures R.PrintFields([f] + more, "") == R.FieldLine(f) + "\r\n" + R.PrintFields(more, "")
    ensures R.PrintFields([], "") == "\r\n" + ""
  {
    hide R.FieldLine;
    assert ([f] + more)[1..] == more;
  }

  lemma Regrouped(s: string, a: string, b: string, c: string, d: string, e: string)
    ensures s + (a + (b + (c + (d + (e + ("\r\n" + "")))))) == s + a + b + c + d + (e + "\r\n")
  {
    var t4 := e + ("\r\n" + "");
    var t3 := d + t4;
    var t2 := c + t3;
    var t1 := b + t2;
    Regroup(s, a, t1);
    Regroup(s + a, b, t2);
    Regroup(s + a + b, c, t3);
    Regroup(s + a + b + c, d, t4);
    assert t4 == e + "\r\n";
  }

  lemma LastField(close: bool)
    ensures R.FieldLine(R.Field("Connection", " ", if close then "close" else "keep-alive", "")) + "\r\n" + "\r\n" ==
      if close then "Connection: close\r\n\r\n" else "Connection: keep-alive\r\n\r\n"
  {
    if close {
      assert R.FieldLine(R.Field("Connection", " ", "close", "")) == "Connection: close";
    } else {
      assert R.FieldLine(R.Field("Connection", " ", "keep-alive", "")) == "Connection: keep-alive";
    }
  }

  lemma FieldIs(name: string, value: string)
    ensures R.FieldLine(R.Field(name, " ", value, "")) + "\r\n" == name + (": " + value + "\r\n")
  {}

  lemma TypeField(value: string)
    ensures "Content-Type" + (": " + value + "\r\n") == "Content-Type: " + value + "\r\n"
  {
    assert "Content-Type: " == "Content-Type" + ": ";
  }

  lemma CacheField()
    ensures "Cache-Control" + (": " + "no-cache" + "\r\n") == "Cache-Control: no-cache\r\n"
  {}

  lemma BufferingField()
    ensures "X-Accel-Buffering" + (": " + "no" + "\r\n") == "X-Accel-Buffering: no\r\n"
  {}

  lemma EncodingField()
    ensures "Transfer-Encoding" + (": " + "chunked" + "\r\n") == "Transfer-Encoding: chunked\r\n"
  {
    var line := "Transfer-Encoding: chunked\r\n";
    assert line[..17] == "Transfer-Encoding" && line[17..] == ": " + "chunked" + "\r\n";
  }

  // A status line and five fields, one of which announces chunks, ended by the empty line.
  lemma HeadersAnnounce(close: bool)
    ensures Headers(close) == STATUS_LINE + R.PrintFields([
      R.Field("Content-Type", " ", "text/event-stream; charset=utf-8", ""), R.Field("Cache-Control", " ", "no-cache", ""),
      R.Field("X-Accel-Buffering", " ", "no", ""), R.Field("Transfer-Encoding", " ", "chunked", ""),
      R.Field("Connection", " ", if close then "close" else "keep-alive", "")], "")
  {
    hide R.PrintFields, R.FieldLine;
    var a, b := R.Field("Content-Type", " ", "text/event-stream; charset=utf-8", ""), R.Field("Cache-Control", " ", "no-cache", "");
    var c, d := R.Field("X-Accel-Buffering", " ", "no", ""), R.Field("Transfer-Encoding", " ", "chunked", "");
    var e := R.Field("Connection", " ", if close then "close" else "keep-alive", "");
    FiveFields(a, b, c, d, e);
    Regrouped(STATUS_LINE, R.FieldLine(a) + "\r\n", R.FieldLine(b) + "\r\n", R.FieldLine(c) + "\r\n",
      R.FieldLine(d) + "\r\n", R.FieldLine(e) + "\r\n");
    FieldIs(a.name, a.value);
    FieldIs(b.name, b.value);
    FieldIs(c.name, c.value);
    FieldIs(d.name, d.value);
    TypeField(a.value);
    CacheField();
    BufferingField();
    EncodingField();
    LastField(close);
  }
}
