/**
 The client side of an upstream event stream: writeStreamData and ltrimCopy of
 src/ai/OpenAIClient.cc (the data lines of section 9.2 of the WHATWG HTML Living
 Standard, ended by LF or CRLF). What a JSON text contains is an arbitrary function.
 */
module SseStream {
  import opened HttpMessage
  import opened Strings

  datatype Option<T> = None | Some(value: T)

  // What the code looks for in a frame: parse failed, an error member, no usable
  // choice, or the two strings the first choice may hold.
  datatype Frame = Invalid | ErrorFrame(dump: string) | NoChoice | Choice(delta: Option<string>, message: Option<string>)

  // deltas: history, what onDelta was called with.
  datatype Context = Context(pending: string, assembled: string, error: string, deltas: seq<string>)

  const EMPTY := Context("", "", "", [])

  function LtrimCopy(s: string): (r: string)
    ensures r == "" || (r[0] != ' ' && r[0] != '\t')
  {
    if s != "" && (s[0] == ' ' || s[0] == '\t') then LtrimCopy(s[1..]) else s
  }

  function PopCr(line: string): string {
    if line != "" && line[|line| - 1] == '\r' then line[..|line| - 1] else line
  }

  function DeltaOf(f: Frame): string
    requires f.Choice?
  {
    var delta := if f.delta.Some? then f.delta.value else "";
    if delta == "" && f.message.Some? then f.message.value else delta
  }

  // One line, its LF removed.
  function HandleLine(json: string -> Frame, c: Context, raw: string): Context {
    var line := PopCr(raw);
    if !("data:" <= line) then c
    else
      var data := LtrimCopy(line[5..]);
      if data == "" || data == "[DONE]" then c
      else
        var f := json(data);
        if f.ErrorFrame? then c.(error := f.dump)
        else if f.Choice? && DeltaOf(f) != "" then c.(assembled := c.assembled + DeltaOf(f), deltas := c.deltas + [DeltaOf(f)])
        else c
  }

  // Handle complete lines until none is left.
  function Drain(json: string -> Frame, c: Context): Context
    decreases |c.pending|
  {
    var nl := Find(c.pending, '\n');
    if nl == |c.pending| then c
    else
      var next := HandleLine(json, c.(pending := c.pending[nl + 1..]), c.pending[..nl]);
      assert next.pending == c.pending[nl + 1..];
      Drain(json, next)
  }

  lemma DrainStep(json: string -> Frame, c: Context)
    ensures var nl := Find(c.pending, '\n');
      Drain(json, c) == if nl == |c.pending| then c
                        else Drain(json, HandleLine(json, c.(pending := c.pending[nl + 1..]), c.pending[..nl]))
  {
    hide HandleLine, Find;
  }

  function Feed(json: string -> Frame, c: Context, chunk: string): Context {
    Drain(json, c.(pending := c.pending + chunk))
  }

  function FeedAll(json: string -> Frame, c: Context, chunks: seq<string>): Context
    decreases |chunks|
  {
    if chunks == [] then c else FeedAll(json, Feed(json, c, chunks[0]), chunks[1..])
  }

  // ---------------------------------------------------------------- what the bytes mean

  // The complete lines of a text, and what follows the last of them.
  function Lines(s: string): seq<string>
    decreases |s|
  {
    var nl := Find(s, '\n');
    if nl == |s| then [] else [s[..nl]] + Lines(s[nl + 1..])
  }

  function Rest(s: string): string
    decreases |s|
  {
    var nl := Find(s, '\n');
    if nl == |s| then s else Rest(s[nl + 1..])
  }

  function HandleLines(json: string -> Frame, c: Context, lines: seq<string>): Context
    decreases |lines|
  {
    if lines == [] then c else HandleLines(json, HandleLine(json, c, lines[0]), lines[1..])
  }

  // Lines neither look at the pending bytes nor change them.
  lemma LineIgnoresPending(json: string -> Frame, c: Context, line: string, p: string)
    ensures HandleLine(json, c.(pending := p), line) == HandleLine(json, c, line).(pending := p)
  {}

  lemma {:induction false} LinesIgnorePending(json: string -> Frame, c: Context, lines: seq<string>, p: string)
    ensures HandleLines(json, c.(pending := p), lines) == HandleLines(json, c, lines).(pending := p)
    decreases |lines|
  {
    hide HandleLine;
    if lines != [] {
      LineIgnoresPending(json, c, lines[0], p);
      LinesIgnorePending(json, HandleLine(json, c, lines[0]), lines[1..], p);
    }
  }

  // The buffering does nothing but cut the stream into lines.
  lemma {:induction false} DrainIsLines(json: string -> Frame, c: Context)
    ensures Drain(json, c) == HandleLines(json, c, Lines(c.pending)).(pending := Rest(c.pending))
    decreases |c.pending|
  {
    hide HandleLine, Find;
    var s := c.pending;
    var nl := Find(s, '\n');
    if nl < |s| {
      var line, more := s[..nl], s[nl + 1..];
      var next := HandleLine(json, c.(pending := more), line);
      LineIgnoresPending(json, c, line, more);
      DrainIsLines(json, next);
      var lines := Lines(more);
      assert Lines(s) == [line] + lines;
      assert ([line] + lines)[1..] == lines;
      LinesIgnorePending(json, HandleLine(json, c, line), lines, more);
    }
  }

  lemma {:induction false} FindInFront(a: string, b: string, c: char)
    requires c in a
    ensures Find(a + b, c) == Find(a, c) < |a|
  {
    assert (a + b)[0] == a[0];
    if a[0] != c {
      assert (a + b)[1..] == a[1..] + b;
      FindInFront(a[1..], b, c);
    }
  }

  lemma {:induction false} FindNowhere(s: string, c: char)
    ensures Find(s, c) == |s| <==> c !in s
  {
    if s != "" && s[0] != c {
      FindNowhere(s[1..], c);
      assert s == [s[0]] + s[1..];
    }
  }

  lemma {:induction false} RestHasNoNewline(s: string)
    ensures '\n' !in Rest(s)
    decreases |s|
  {
    FindNowhere(s, '\n');
    var nl := Find(s, '\n');
    if nl < |s| { RestHasNoNewline(s[nl + 1..]); }
  }

  // A text cut anywhere has the same lines.
  lemma {:induction false} LinesOfJoined(a: string, b: string)
    ensures Lines(a + b) == Lines(a) + Lines(Rest(a) + b)
    ensures Rest(a + b) == Rest(Rest(a) + b)
    decreases |a|
  {
    hide Find;
    FindNowhere(a, '\n');
    var nl := Find(a, '\n');
    if nl < |a| {
      FindInFront(a, b, '\n');
      assert (a + b)[..nl] == a[..nl] && (a + b)[nl + 1..] == a[nl + 1..] + b;
      LinesOfJoined(a[nl + 1..], b);
    }
  }

  lemma {:induction false} HandleLinesAppend(json: string -> Frame, c: Context, a: seq<string>, b: seq<string>)
    ensures HandleLines(json, c, a + b) == HandleLines(json, HandleLines(json, c, a), b)
    decreases |a|
  {
    hide HandleLine;
    if a == [] {
      assert a + b == b;
    } else {
      HandleLinesAppend(json, HandleLine(json, c, a[0]), a[1..], b);
      assert (a + b)[1..] == a[1..] + b;
    }
  }

  // ---------------------------------------------------------------- the promises

  function Ended(lines: seq<string>): string {
    if lines == [] then "" else lines[0] + "\n" + Ended(lines[1..])
  }

  lemma CutAt(s: string, nl: nat)
    requires nl < |s| && s[nl] == '\n'
    ensures s == s[..nl] + "\n" + s[nl + 1..]
  {}

  lemma FirstLine(s: string)
    requires '\n' in s
    ensures var nl := Find(s, '\n');
      && nl < |s| && s == s[..nl] + "\n" + s[nl + 1..] && '\n' !in s[..nl]
      && Lines(s) == [s[..nl]] + Lines(s[nl + 1..]) && Rest(s) == Rest(s[nl + 1..])
  {
    hide Find;
    FindNowhere(s, '\n');
    CutAt(s, Find(s, '\n'));
  }

  lemma NoLine(s: string)
    requires '\n' !in s
    ensures Lines(s) == [] && Rest(s) == s
  {
    FindNowhere(s, '\n');
  }

  // The lines are the text cut at its line feeds.
  lemma {:induction false} LinesJoin(s: string)
    ensures s == Ended(Lines(s)) + Rest(s) && '\n' !in Rest(s)
    ensures forall i :: 0 <= i < |Lines(s)| ==> '\n' !in Lines(s)[i]
    decreases |s|
  {
    hide Find, Lines, Rest;
    if '\n' in s {
      FirstLine(s);
      var nl := Find(s, '\n');
      var line, more := s[..nl], s[nl + 1..];
      LinesJoin(more);
      assert Lines(s)[1..] == Lines(more);
      assert line + "\n" + (Ended(Lines(more)) + Rest(more)) == line + "\n" + Ended(Lines(more)) + Rest(more);
    } else {
      NoLine(s);
    }
  }

  // An arrival has the effect of the lines it completes, in order, and keeps what it leaves open.
  lemma FeedIsLines(json: string -> Frame, c: Context, chunk: string)
    ensures var s := c.pending + chunk;
      Feed(json, c, chunk) == HandleLines(json, c, Lines(s)).(pending := Rest(s))
  {
    hide HandleLine, Lines, Rest, HandleLines, Drain;
    var s := c.pending + chunk;
    DrainIsLines(json, c.(pending := s));
    LinesIgnorePending(json, c, Lines(s), s);
  }

  // Two arrivals do what one would: same pending, assembled, error and deltas.
  lemma FeedTwice(json: string -> Frame, c: Context, a: string, b: string)
    ensures Feed(json, Feed(json, c, a), b) == Feed(json, c, a + b)
  {
    hide HandleLine, Lines, Rest, HandleLines, Drain;
    var x := c.pending + a;
    var c1 := HandleLines(json, c, Lines(x));
    var y := Rest(x) + b;
    assert c.pending + (a + b) == x + b;
    DrainIsLines(json, c.(pending := x));
    LinesIgnorePending(json, c, Lines(x), x);
    DrainIsLines(json, Feed(json, c, a).(pending := y));
    LinesIgnorePending(json, c1, Lines(y), y);
    DrainIsLines(json, c.(pending := x + b));
    LinesIgnorePending(json, c, Lines(x + b), x + b);
    LinesOfJoined(x, b);
    HandleLinesAppend(json, c, Lines(x), Lines(y));
  }

  // However the network cuts the stream, the result is that of one arrival.
  lemma {:induction false} AnyChunking(json: string -> Frame, c: Context, chunks: seq<string>)
    requires '\n' !in c.pending
    ensures FeedAll(json, c, chunks) == Feed(json, c, Flatten(chunks))
    decreases |chunks|
  {
    hide Drain, Feed;
    if chunks == [] {
      FeedNothing(json, c);
    } else {
      NoNewlinePending(json, c, chunks[0]);
      AnyChunking(json, Feed(json, c, chunks[0]), chunks[1..]);
      FeedTwice(json, c, chunks[0], Flatten(chunks[1..]));
    }
  }

  lemma FeedNothing(json: string -> Frame, c: Context)
    requires '\n' !in c.pending
    ensures Feed(json, c, "") == c
  {
    assert c.pending + "" == c.pending;
    FindNowhere(c.pending, '\n');
  }

  // Between arrivals only an unfinished line is kept.
  lemma NoNewlinePending(json: string -> Frame, c: Context, chunk: string)
    ensures '\n' !in Feed(json, c, chunk).pending
  {
    hide HandleLine, Lines, HandleLines, Drain, Rest;
    DrainIsLines(json, c.(pending := c.pending + chunk));
    RestHasNoNewline(c.pending + chunk);
  }

  // ---------------------------------------------------------------- what a line does

  predicate Blanks(s: string) { forall i :: 0 <= i < |s| ==> s[i] == ' ' || s[i] == '\t' }

  // The line "data:", blanks, the data, and perhaps a CR.
  predicate DataLine(raw: string, blanks: string, data: string, cr: string) {
    && raw == "data:" + blanks + data + cr && Blanks(blanks)
    && (data != "" ==> data[0] != ' ' && data[0] != '\t')
    && (cr == "\r" || (cr == "" && (data != "" ==> data[|data| - 1] != '\r')))
  }

  lemma {:induction false} BlanksTrimmed(blanks: string, data: string)
    requires Blanks(blanks) && (data != "" ==> data[0] != ' ' && data[0] != '\t')
    ensures LtrimCopy(blanks + data) == data
    decreases |blanks|
  {
    if blanks == "" {
      assert blanks + data == data;
    } else {
      assert (blanks + data)[0] == blanks[0] && (blanks + data)[1..] == blanks[1..] + data;
      BlanksTrimmed(blanks[1..], data);
    }
  }

  lemma CrPopped(line: string, cr: string)
    requires line != "" && (cr == "\r" || (cr == "" && line[|line| - 1] != '\r'))
    ensures PopCr(line + cr) == line
  {
    if cr == "\r" {
      assert (line + cr)[|line|] == '\r' && (line + cr)[..|line|] == line;
    } else {
      assert line + cr == line;
    }
  }

  lemma LastOf(a: string, b: string)
    ensures a + b != "" ==> (a + b)[|a + b| - 1] == if b == "" then a[|a| - 1] else b[|b| - 1]
  {}

  lemma DataOf(raw: string, blanks: string, data: string, cr: string)
    requires DataLine(raw, blanks, data, cr)
    ensures var line := PopCr(raw); "data:" <= line && LtrimCopy(line[5..]) == data
  {
    hide PopCr, LtrimCopy;
    var text := blanks + data;
    var line := "data:" + text;
    LastOf(blanks, data);
    LastOf("data:", text);
    assert raw == line + cr by { assert "data:" + blanks + data == line; }
    CrPopped(line, cr);
    BlanksTrimmed(blanks, data);
    assert line[5..] == text;
  }

  // What a data line does, by what its JSON text holds: the delta of the first choice is handed
  // on and added to the answer, or its message where there is no delta; an error is kept; and
  // anything else, like the end mark, changes nothing.
  lemma DataLineDoes(json: string -> Frame, c: Context, raw: string, blanks: string, data: string, cr: string)
    requires DataLine(raw, blanks, data, cr)
    ensures HandleLine(json, c, raw) ==
      if data == "" || data == "[DONE]" then c
      else match json(data)
        case ErrorFrame(dump) => c.(error := dump)
        case Choice(Some(d), m) =>
          if d != "" then c.(assembled := c.assembled + d, deltas := c.deltas + [d])
          else if m.Some? && m.value != "" then c.(assembled := c.assembled + m.value, deltas := c.deltas + [m.value])
          else c
        case Choice(None, Some(m)) => if m != "" then c.(assembled := c.assembled + m, deltas := c.deltas + [m]) else c
        case _ => c
  {
    hide PopCr, LtrimCopy;
    DataOf(raw, blanks, data, cr);
  }

  // Every line that begins "data:" is one of those.
  lemma AnyDataLine(raw: string) returns (blanks: string, data: string, cr: string)
    requires "data:" <= raw
    ensures DataLine(raw, blanks, data, cr)
  {
    var line := PopCr(raw);
    cr := if line == raw then "" else "\r";
    assert raw == line + cr;
    assert line[..5] == raw[..5];
    blanks, data := SplitBlanks(line[5..]);
    assert line == "data:" + (blanks + data);
    assert raw == "data:" + blanks + data + cr;
    assert cr == "" && data != "" ==> data[|data| - 1] == raw[|raw| - 1];
  }

  lemma {:induction false} SplitBlanks(s: string) returns (blanks: string, data: string)
    ensures s == blanks + data && Blanks(blanks) && (data != "" ==> data[0] != ' ' && data[0] != '\t')
    decreases |s|
  {
    if s != "" && (s[0] == ' ' || s[0] == '\t') {
      var more;
      more, data := SplitBlanks(s[1..]);
      blanks := [s[0]] + more;
    } else {
      blanks, data := "", s;
    }
  }

  // And every other line, of whatever field, changes nothing.
  lemma OtherLines(json: string -> Frame, c: Context, raw: string)
    requires !("data:" <= raw)
    ensures HandleLine(json, c, raw) == c
  {
    assert PopCr(raw) <= raw;
  }

  predicate Consistent(c: Context) {
    c.assembled == Flatten(c.deltas) && forall i :: 0 <= i < |c.deltas| ==> c.deltas[i] != ""
  }

  lemma LineConsistent(json: string -> Frame, c: Context, line: string)
    requires Consistent(c)
    ensures Consistent(HandleLine(json, c, line))
  {
    hide Flatten, PopCr, LtrimCopy;
    var d := HandleLine(json, c, line);
    if d.deltas != c.deltas {
      FlattenSnoc(c.deltas, d.deltas[|c.deltas|]);
    }
  }

  lemma {:induction false} LinesConsistent(json: string -> Frame, c: Context, lines: seq<string>)
    requires Consistent(c)
    ensures Consistent(HandleLines(json, c, lines))
    decreases |lines|
  {
    hide HandleLine, Consistent;
    if lines != [] {
      LineConsistent(json, c, lines[0]);
      LinesConsistent(json, HandleLine(json, c, lines[0]), lines[1..]);
    }
  }

  // What is assembled is the deltas handed on, none of them empty, in order.
  lemma AssembledIsDeltas(json: string -> Frame, chunks: seq<string>)
    ensures var c := FeedAll(json, EMPTY, chunks);
      c.assembled == Flatten(c.deltas) && forall i :: 0 <= i < |c.deltas| ==> c.deltas[i] != ""
  {
    hide HandleLine, Lines, HandleLines, Drain, Rest;
    AnyChunking(json, EMPTY, chunks);
    var all := EMPTY.(pending := "" + Flatten(chunks));
    DrainIsLines(json, all);
    LinesConsistent(json, all, Lines(all.pending));
  }
}

module SseFraming {
  import opened HttpMessage
  import opened SseStream

  class StreamContext {
    const json: string -> Frame
    var pending: string
    var assembled: string
    var error: string
    var deltas: seq<string>

    function Abs(): Context
      reads this
    {
      Context(pending, assembled, error, deltas)
    }

    constructor (json: string -> Frame)
      ensures Abs() == EMPTY && this.json == json
    {
      this.json := json;
      pending, assembled, error, deltas := "", "", "", [];
    }

    // One arrival of bytes.
    method WriteStreamData(contents: string) returns (totalSize: nat)
      modifies this
      ensures Abs() == Feed(json, old(Abs()), contents) && totalSize == |contents|
    {
      hide HandleLine, Find, Drain;
      totalSize := |contents|;
      pending := pending + contents;
      ghost var start := Abs();
      var nl := Find(pending, '\n');
      while nl < |pending|
        invariant nl == Find(pending, '\n')
        invariant Drain(json, Abs()) == Drain(json, start)
        decreases |pending|
      {
        DrainStep(json, Abs());
        var line := pending[..nl];
        pending := pending[nl + 1..];
        HandleOne(line);
        nl := Find(pending, '\n');
      }
      DrainStep(json, Abs());
    }

    // The body of the loop for one line.
    method HandleOne(raw: string)
      modifies this`assembled, this`error, this`deltas
      ensures Abs() == HandleLine(json, old(Abs()), raw)
    {
      var line := raw;
      if line != "" && line[|line| - 1] == '\r' {
        line := line[..|line| - 1];
      }
      if !("data:" <= line) {
        return;
      }
      var data := LtrimCopy(line[5..]);
      if data == "" || data == "[DONE]" {
        return;
      }
      var frame := json(data);
      if frame.ErrorFrame? {
        error := frame.dump;
        return;
      }
      if !frame.Choice? {
        return;
      }
      var delta := "";
      if frame.delta.Some? {
        delta := frame.delta.value;
      }
      if delta == "" && frame.message.Some? {
        delta := frame.message.value;
      }
      if delta != "" {
        assembled := assembled + delta;
        deltas := deltas + [delta];
      }
    }
  }
}
