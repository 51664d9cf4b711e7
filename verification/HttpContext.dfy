/**
 The incremental request parser of src/http/HttpContext.cc: what one pass of its
 loop does, what a whole call does, and that neither depends on how the bytes
 were cut into reads.
 */
module HttpParser {
  import opened HttpMessage
  import opened Strings
  import opened ByteBuffer

  datatype ParseState = ExpectRequestLine | ExpectHeaders | ExpectBody | GotAll

  datatype Parser = Parser(state: ParseState, request: Request, bodyExpected: nat)

  const INIT := Parser(ExpectRequestLine, EMPTY_REQUEST, 0)

  // ---------------------------------------------------------------- one pass

  // Parse the request line into r. Fields are assigned in order, so a failure keeps those already read.
  function ProcessRequestLine(r: Request, line: string): (bool, Request) {
    var sp := Find(line, ' ');
    if sp == |line| then (false, r)
    else
      var r1 := r.(method_ := MethodOf(line[..sp]));
      if r1.method_ == Invalid then (false, r1)
      else
        var rest := line[sp + 1..];
        var sp2 := Find(rest, ' ');
        if sp2 == |rest| then (false, r1)
        else
          var target := rest[..sp2];
          var q := Find(target, '?');
          var r2 := if q == |target| then r1.(path := target) else r1.(path := target[..q], query := target[q + 1..]);
          var version := rest[sp2 + 1..];
          if version == "HTTP/1.1" then (true, r2.(version := Http11))
          else if version == "HTTP/1.0" then (true, r2.(version := Http10))
          else (false, r2)
  }

  // A header line with no colon is skipped.
  function ProcessHeaderLine(r: Request, line: string): Request {
    var colon := Find(line, ':');
    if colon == |line| then r else r.(headers := AddHeader(r.headers, line[..colon], line[colon + 1..]))
  }

  // What one pass of the loop does: consume bytes and go on, or leave the loop.
  datatype Pass = Consume(parser: Parser, used: nat) | Leave(ok: bool, parser: Parser)

  function Step(p: Parser, buf: string): (r: Pass)
    ensures r.Consume? ==> r.used <= |buf|
  {
    match p.state
    case ExpectRequestLine =>
      var crlf := FindCrlf(buf);
      if crlf == |buf| then Leave(true, p)
      else
        var (ok, request) := ProcessRequestLine(p.request, buf[..crlf]);
        if ok then Consume(p.(request := request, state := ExpectHeaders), crlf + 2)
        else Leave(false, p.(request := request))
    case ExpectHeaders =>
      var crlf := FindCrlf(buf);
      if crlf == |buf| then Leave(true, p)
      else if crlf == 0 then
        var n := BodyLength(p.request.headers);
        Consume(p.(bodyExpected := n, state := if n > 0 then ExpectBody else GotAll), 2)
      else Consume(p.(request := ProcessHeaderLine(p.request, buf[..crlf])), crlf + 2)
    case ExpectBody =>
      if |buf| < p.bodyExpected then Leave(true, p)
      else Consume(p.(request := p.request.(body := buf[..p.bodyExpected]), state := GotAll), p.bodyExpected)
    case GotAll => Leave(true, p)
  }

  function Rank(s: ParseState): nat {
    match s
    case ExpectRequestLine => 3
    case ExpectHeaders => 2
    case ExpectBody => 1
    case GotAll => 0
  }

  // The loop terminates: a pass consumes bytes, or moves to a later state.
  lemma StepProgress(p: Parser, buf: string)
    requires Step(p, buf).Consume?
    ensures var r := Step(p, buf); r.used > 0 || Rank(r.parser.state) < Rank(p.state)
  {}

  // ---------------------------------------------------------------- one call

  datatype Outcome = Outcome(ok: bool, parser: Parser, rest: string)

  // parseRequest on a buffer that holds buf.
  function Parse(p: Parser, buf: string): Outcome
    decreases |buf|, Rank(p.state)
  {
    var r := Step(p, buf);
    if r.Leave? then Outcome(r.ok, r.parser, buf)
    else
      StepProgress(p, buf);
      Parse(r.parser, buf[r.used..])
  }

  class HttpContext {
    var state: ParseState
    var request: Request
    var bodyExpected: nat

    function Abs(): Parser
      reads this
    {
      Parser(state, request, bodyExpected)
    }

    constructor ()
      ensures Abs() == INIT
    {
      state, request, bodyExpected := ExpectRequestLine, EMPTY_REQUEST, 0;
    }

    method Reset()
      modifies this
      ensures Abs() == INIT
    {
      state := ExpectRequestLine;
      request := EMPTY_REQUEST;
      bodyExpected := 0;
    }

    predicate GotAll()
      reads this
    {
      state.GotAll?
    }

    // The body of the loop: goOn is false when it breaks.
    method Pass(buf: Buffer) returns (goOn: bool, ok: bool)
      requires buf.Valid()
      modifies this, buf`readerIndex, buf`writerIndex
      ensures buf.Valid()
      ensures var r := Step(old(Abs()), old(buf.Contents()));
        && goOn == r.Consume? && ok == (r.Consume? || r.ok) && Abs() == r.parser
        && buf.Contents() == if r.Consume? then old(buf.Contents())[r.used..] else old(buf.Contents())
    {
      hide ProcessRequestLine, ProcessHeaderLine, BodyLength, FindCrlf;
      var peek := buf.Contents();
      if state.ExpectRequestLine? {
        var crlf := FindCrlf(peek);
        if crlf == |peek| { return false, true; }
        var r := ProcessRequestLine(request, peek[..crlf]);
        request := r.1;
        if !r.0 { return false, false; }
        buf.Retrieve(crlf + 2);
        state := ExpectHeaders;
      } else if state.ExpectHeaders? {
        var crlf := FindCrlf(peek);
        if crlf == |peek| { return false, true; }
        if crlf == 0 {
          buf.Retrieve(2);
          bodyExpected := BodyLength(request.headers);
          if bodyExpected > 0 {
            state := ExpectBody;
          } else {
            state := ParseState.GotAll;
          }
          return true, true;
        }
        request := ProcessHeaderLine(request, peek[..crlf]);
        buf.Retrieve(crlf + 2);
      } else if state.ExpectBody? {
        if buf.ReadableBytes() < bodyExpected { return false, true; }
        request := request.(body := peek[..bodyExpected]);
        buf.Retrieve(bodyExpected);
        state := ParseState.GotAll;
      } else {
        return false, true;
      }
      return true, true;
    }

    method ParseRequest(buf: Buffer) returns (ok: bool)
      requires buf.Valid()
      modifies this, buf`readerIndex, buf`writerIndex
      ensures buf.Valid()
      ensures Outcome(ok, Abs(), buf.Contents()) == Parse(old(Abs()), old(buf.Contents()))
    {
      hide Step, Parse;
      ok := true;
      var goOn := true;
      while goOn
        invariant buf.Valid()
        invariant goOn ==> Parse(Abs(), buf.Contents()) == Parse(old(Abs()), old(buf.Contents()))
        invariant !goOn ==> Outcome(ok, Abs(), buf.Contents()) == Parse(old(Abs()), old(buf.Contents()))
        decreases goOn, buf.ReadableBytes(), Rank(state)
      {
        ParseStep(Abs(), buf.Contents());
        goOn, ok := Pass(buf);
      }
    }
  }

  lemma ParseStep(p: Parser, buf: string)
    ensures var r := Step(p, buf);
      && (r.Leave? ==> Parse(p, buf) == Outcome(r.ok, r.parser, buf))
      && (r.Consume? ==>
           (Parse(p, buf) == Parse(r.parser, buf[r.used..])
            && (r.used > 0 || Rank(r.parser.state) < Rank(p.state))))
  {
    if Step(p, buf).Consume? { StepProgress(p, buf); }
  }

  // ---------------------------------------------------------------- fragmentation

  // A CRLF found in a prefix is the one found in the whole.
  lemma {:induction false} FindCrlfPrefix(a: string, b: string)
    requires FindCrlf(a) < |a|
    ensures FindCrlf(a + b) == FindCrlf(a)
  {
    assert (a + b)[0] == a[0] && (a + b)[1] == a[1];
    if !(a[0] == '\r' && a[1] == '\n') {
      FindCrlfPrefix(a[1..], b);
      assert (a + b)[1..] == a[1..] + b;
    }
  }

  // More bytes never change a pass that could already act.
  lemma StepMonotone(p: Parser, a: string, b: string)
    requires var r := Step(p, a); r.Consume? || !r.ok
    ensures Step(p, a + b) == Step(p, a)
  {
    hide FindCrlf, ProcessRequestLine, ProcessHeaderLine, BodyLength;
    if p.state.ExpectRequestLine? || p.state.ExpectHeaders? {
      FindCrlfPrefix(a, b);
      var i := FindCrlf(a);
      assert (a + b)[..i] == a[..i];
    } else {
      assert |a| >= p.bodyExpected ==> (a + b)[..p.bodyExpected] == a[..p.bodyExpected];
    }
  }

  // Reading the same bad request line again leaves the request as the first reading did.
  lemma RequestLineIdempotent(r: Request, line: string)
    requires !ProcessRequestLine(r, line).0
    ensures ProcessRequestLine(ProcessRequestLine(r, line).1, line) == ProcessRequestLine(r, line)
  {}

  lemma FailAgain(p: Parser, a: string)
    requires Step(p, a).Leave? && !Step(p, a).ok
    ensures Step(Step(p, a).parser, a) == Step(p, a)
  {
    hide FindCrlf, ProcessRequestLine;
    RequestLineIdempotent(p.request, a[..FindCrlf(a)]);
  }

  // From any state, parsing a and then, with b appended to what was left, parsing
  // again ends exactly as parsing everything at once.
  lemma {:induction false} Fragmentation(p: Parser, a: string, b: string)
    ensures var first := Parse(p, a);
      Parse(first.parser, first.rest + b) == Parse(p, a + b)
    decreases |a|, Rank(p.state)
  {
    hide Step, Parse;
    ParseStep(p, a);
    ParseStep(p, a + b);
    var r := Step(p, a);
    if r.Consume? {
      StepMonotone(p, a, b);
      assert (a + b)[r.used..] == a[r.used..] + b;
      Fragmentation(r.parser, a[r.used..], b);
    } else if !r.ok {
      StepMonotone(p, a, b);
      FailAgain(p, a);
      StepMonotone(r.parser, a, b);
      ParseStep(r.parser, a + b);
    } else {
      LeaveKeeps(p, a);
    }
  }

  lemma LeaveKeeps(p: Parser, a: string)
    requires Step(p, a).Leave? && Step(p, a).ok
    ensures Step(p, a).parser == p
  {}

  // Reads arrive one by one; each is appended to what the last call left.
  function ParseReads(p: Parser, rest: string, arrivals: seq<string>): Outcome
    decreases |arrivals|
  {
    if arrivals == [] then Parse(p, rest)
    else
      var first := Parse(p, rest);
      ParseReads(first.parser, first.rest + arrivals[0], arrivals[1..])
  }

  // However the bytes are cut into reads, verdict, parser and leftover are those of one read.
  lemma {:induction false} AnyFragmentation(p: Parser, rest: string, arrivals: seq<string>)
    ensures ParseReads(p, rest, arrivals) == Parse(p, rest + Flatten(arrivals))
    decreases |arrivals|
  {
    hide Parse;
    if arrivals == [] {
      assert rest + Flatten(arrivals) == rest;
    } else {
      var first := Parse(p, rest);
      AnyFragmentation(first.parser, first.rest + arrivals[0], arrivals[1..]);
      assert (first.rest + arrivals[0]) + Flatten(arrivals[1..]) == first.rest + Flatten(arrivals);
      Fragmentation(p, rest, Flatten(arrivals));
    }
  }
}
