/**
 The chunks of src/http/HttpServer.cc (toChunk, the "0\r\n\r\n" terminator), and a
 reader for them written from section 7.1 of RFC 9112: sizes in either case,
 chunk extensions and trailer fields are accepted although the server sends none.
 */
module Chunked {
  import opened HttpMessage
  import opened Strings
  import HttpRoundTrip

  const CRLF := "\r\n"
  const TERMINATOR := "0\r\n\r\n"

  // ---------------------------------------------------------------- writing

  // "%zx".
  function Hex(n: nat): (s: string)
    ensures s != [] && forall i :: 0 <= i < |s| ==> IsHex(s[i])
  {
    (if n < 16 then [] else Hex(n / 16)) + [HexDigit(n % 16)]
  }

  function ToChunk(payload: string): string {
    Hex(|payload|) + CRLF + payload + CRLF
  }

  // The chunks of the payloads, one after another, and then tail.
  function Chunks(payloads: seq<string>, tail: string): string {
    if payloads == [] then tail else ToChunk(payloads[0]) + Chunks(payloads[1..], tail)
  }

  // ---------------------------------------------------------------- reading

  predicate IsHex(c: char) { '0' <= c <= '9' || 'a' <= c <= 'f' || 'A' <= c <= 'F' }

  function HexVal(c: char): (d: nat)
    requires IsHex(c)
    ensures d < 16
  {
    if c <= '9' then (c - '0') as nat else if c <= 'F' then (c - 'A') as nat + 10 else (c - 'a') as nat + 10
  }

  function Value(s: string): nat
    requires forall i :: 0 <= i < |s| ==> IsHex(s[i])
  {
    if s == [] then 0 else 16 * Value(s[..|s| - 1]) + HexVal(s[|s| - 1])
  }

  // How many hexadecimal digits s begins with.
  function HexRun(s: string): (n: nat)
    ensures n <= |s| && forall i :: 0 <= i < n ==> IsHex(s[i])
  {
    if s == [] || !IsHex(s[0]) then 0 else 1 + HexRun(s[1..])
  }

  // A chunk-size line: digits, then nothing or the start of an extension.
  predicate IsSizeLine(line: string) {
    var n := HexRun(line);
    n > 0 && (n < |line| ==> line[n] in {';', ' ', '\t'})
  }

  function SizeOf(line: string): nat {
    Value(line[..HexRun(line)])
  }

  datatype Decoded =
    | Body(data: string, rest: string)  // the whole body, and what follows the message
    | NeedMore(data: string)            // what complete chunks have brought so far
    | Malformed

  // Field lines up to an empty one.
  function SkipTrailer(s: string): Decoded
    decreases |s|
  {
    var n := FindCrlf(s);
    if n == |s| then NeedMore([]) else if n == 0 then Body([], s[2..]) else SkipTrailer(s[n + 2..])
  }

  function Prepend(data: string, d: Decoded): Decoded {
    match d
    case Body(more, rest) => Body(data + more, rest)
    case NeedMore(more) => NeedMore(data + more)
    case Malformed => Malformed
  }

  function Decode(s: string): Decoded
    decreases |s|
  {
    var n := FindCrlf(s);
    if n == |s| then NeedMore([])
    else if !IsSizeLine(s[..n]) then Malformed
    else if SizeOf(s[..n]) == 0 then SkipTrailer(s[n + 2..])
    else AfterSize(s[n + 2..], SizeOf(s[..n]))
  }

  // size bytes of data, CRLF, and the next chunk.
  function AfterSize(s: string, size: nat): Decoded
    decreases |s|
  {
    if |s| < size + 2 then NeedMore([])
    else if s[size..size + 2] != CRLF then Malformed
    else Prepend(s[..size], Decode(s[size + 2..]))
  }

  // ---------------------------------------------------------------- the size line

  lemma {:induction false} HexValue(n: nat)
    ensures Value(Hex(n)) == n
  {
    var s := Hex(n);
    assert s[..|s| - 1] == if n < 16 then [] else Hex(n / 16);
    assert HexVal(HexDigit(n % 16)) == n % 16;
    if n >= 16 { HexValue(n / 16); }
  }

  lemma {:induction false} HexRunAll(s: string)
    requires forall i :: 0 <= i < |s| ==> IsHex(s[i])
    ensures HexRun(s) == |s|
  {
    if s != [] { HexRunAll(s[1..]); }
  }

  lemma SizeLine(n: nat)
    ensures IsSizeLine(Hex(n)) && SizeOf(Hex(n)) == n && '\r' !in Hex(n)
  {
    HexRunAll(Hex(n));
    HexValue(n);
    assert Hex(n)[..|Hex(n)|] == Hex(n);
  }

  // ---------------------------------------------------------------- one chunk

  lemma ChunkDecoded(payload: string, tail: string)
    requires payload != []
    ensures Decode(ToChunk(payload) + tail) == Prepend(payload, Decode(tail))
  {
    hide IsSizeLine, SizeOf, Hex, Prepend, FindCrlf;
    var h, s := Hex(|payload|), ToChunk(payload) + tail;
    var after := payload + CRLF + tail;
    SizeLine(|payload|);
    assert s == h + CRLF + after;
    HttpRoundTrip.FindCrlfAt(h, after);
    assert s[..|h|] == h && s[|h| + 2..] == after;
    assert after[..|payload|] == payload;
    assert after[|payload|..|payload| + 2] == CRLF;
    assert after[|payload| + 2..] == tail;
  }

  lemma TerminatorDecoded(rest: string)
    ensures Decode(TERMINATOR + rest) == Body([], rest)
  {
    hide IsSizeLine, SizeOf, Hex, FindCrlf;
    var s := TERMINATOR + rest;
    SizeLine(0);
    assert Hex(0) == "0" by { HexZero(); }
    var after := CRLF + rest;
    assert s == "0" + CRLF + after;
    HttpRoundTrip.FindCrlfAt("0", after);
    assert s[..1] == "0" && s[3..] == after;
    assert after == [] + CRLF + rest;
    HttpRoundTrip.FindCrlfAt([], rest);
    assert after[2..] == rest;
  }

  lemma HexZero()
    ensures Hex(0) == "0"
  {}

  // ---------------------------------------------------------------- whole bodies

  // Written by the server and read by the standard's rules: the payloads come back in
  // order, and the reader stops at the end of the body, whatever follows it.
  lemma {:induction false} StreamDecodes(payloads: seq<string>, rest: string)
    requires [] !in payloads
    ensures Decode(Chunks(payloads, TERMINATOR + rest)) == Body(Flatten(payloads), rest)
  {
    hide Decode, ToChunk;
    if payloads == [] {
      TerminatorDecoded(rest);
    } else {
      StreamDecodes(payloads[1..], rest);
      ChunkDecoded(payloads[0], Chunks(payloads[1..], TERMINATOR + rest));
    }
  }

  lemma EmptyChunkIsTerminator()
    ensures ToChunk([]) == TERMINATOR
  {
    HexZero();
  }

  lemma {:induction false} LongerThanTail(payloads: seq<string>, tail: string)
    ensures |Chunks(payloads, tail)| >= |tail|
  {
    if payloads != [] { LongerThanTail(payloads[1..], tail); }
  }

  // The body ends at the first empty payload: the reader has what came before it, and takes
  // everything after it for the next message.
  lemma {:induction false} EmptyPayloadEndsEarly(payloads: seq<string>, i: nat, rest: string)
    requires i < |payloads| && payloads[i] == [] && forall j :: 0 <= j < i ==> payloads[j] != []
    ensures Decode(Chunks(payloads, TERMINATOR + rest)) ==
      Body(Flatten(payloads[..i]), Chunks(payloads[i + 1..], TERMINATOR + rest))
  {
    hide Decode, ToChunk;
    var tail := Chunks(payloads[1..], TERMINATOR + rest);
    if i == 0 {
      EmptyChunkIsTerminator();
      TerminatorDecoded(tail);
    } else {
      EmptyPayloadEndsEarly(payloads[1..], i - 1, rest);
      ChunkDecoded(payloads[0], tail);
      assert payloads[1..][i..] == payloads[i + 1..];
      assert payloads[1..][..i - 1] == payloads[..i][1..];
    }
  }

  lemma {:induction false} FirstEmpty(payloads: seq<string>) returns (i: nat)
    requires [] in payloads
    ensures i < |payloads| && payloads[i] == [] && forall j :: 0 <= j < i ==> payloads[j] != []
  {
    if payloads[0] == [] { return 0; }
    var k := FirstEmpty(payloads[1..]);
    return k + 1;
  }

  // So the filter on empty pieces is exactly what keeps the framing whole.
  lemma DecodesIffNoEmpty(payloads: seq<string>, rest: string)
    ensures Decode(Chunks(payloads, TERMINATOR + rest)) == Body(Flatten(payloads), rest) <==> [] !in payloads
  {
    if [] in payloads {
      var i := FirstEmpty(payloads);
      EmptyPayloadEndsEarly(payloads, i, rest);
      LongerThanTail(payloads[i + 1..], TERMINATOR + rest);
    } else {
      StreamDecodes(payloads, rest);
    }
  }

  // ---------------------------------------------------------------- partial bodies

  lemma {:induction false} FindCrlfCut(a: string, k: nat)
    requires '\r' !in a && k <= |a| + 1
    ensures FindCrlf((a + CRLF)[..k]) == k
  {
    var s := (a + CRLF)[..k];
    if k >= 2 {
      assert s[0] == a[0];
      assert s[1..] == (a[1..] + CRLF)[..k - 1];
      FindCrlfCut(a[1..], k - 1);
    }
  }

  // A cut inside a chunk leaves the reader waiting, with nothing of that chunk delivered.
  lemma ChunkCut(payload: string, k: nat)
    requires payload != [] && k < |ToChunk(payload)|
    ensures Decode(ToChunk(payload)[..k]) == NeedMore([])
  {
    hide IsSizeLine, SizeOf, Hex, Prepend, FindCrlf;
    var h, s := Hex(|payload|), ToChunk(payload)[..k];
    SizeLine(|payload|);
    if k <= |h| + 1 {
      assert s == (h + CRLF)[..k];
      FindCrlfCut(h, k);
    } else {
      var after := (payload + CRLF)[..k - |h| - 2];
      assert s == h + CRLF + after;
      HttpRoundTrip.FindCrlfAt(h, after);
      assert s[..|h|] == h && s[|h| + 2..] == after;
    }
  }

  lemma TerminatorCut(k: nat)
    requires k < |TERMINATOR|
    ensures Decode(TERMINATOR[..k]) == NeedMore([])
  {
    hide IsSizeLine, SizeOf, Hex, FindCrlf;
    SizeLine(0);
    HexZero();
    var s := TERMINATOR[..k];
    if k <= 2 {
      assert s == ("0" + CRLF)[..k];
      FindCrlfCut("0", k);
    } else {
      var after := CRLF[..k - 3];
      assert s == "0" + CRLF + after;
      HttpRoundTrip.FindCrlfAt("0", after);
      assert s[..1] == "0" && s[3..] == after;
      assert after == ([] + CRLF)[..k - 3];
      FindCrlfCut([], k - 3);
    }
  }

  // No early end: a reader that has anything less than the whole body waits for more, and
  // what it has delivered by then is the beginning of the content.
  lemma {:induction false} NoEarlyEnd(payloads: seq<string>, k: nat)
    requires [] !in payloads && k < |Chunks(payloads, TERMINATOR)|
    ensures var d := Decode(Chunks(payloads, TERMINATOR)[..k]);
      d.NeedMore? && d.data <= Flatten(payloads)
  {
    hide Decode, ToChunk;
    if payloads == [] {
      TerminatorCut(k);
    } else {
      var chunk, tail := ToChunk(payloads[0]), Chunks(payloads[1..], TERMINATOR);
      var s := (chunk + tail)[..k];
      if k < |chunk| {
        assert s == chunk[..k];
        ChunkCut(payloads[0], k);
      } else {
        assert s == chunk + tail[..k - |chunk|];
        NoEarlyEnd(payloads[1..], k - |chunk|);
        ChunkDecoded(payloads[0], tail[..k - |chunk|]);
      }
    }
  }
}
