/**
 Replaying a cached answer in pieces, src/http/HttpServer.cc (nextUtf8Boundary and the
 loop of handleChatAsync), against the UTF-8 grammar of section 4 of RFC 3629.
 A byte is a char whose code is the byte's value.
 */
module Utf8Replay {
  import opened Strings

  const CHUNK_BYTES := 48

  predicate InRange(c: char, low: nat, high: nat) { low <= c as nat <= high }

  // (c & 0xC0) == 0x80, the grammar's UTF8-tail.
  predicate Tail(c: char) { InRange(c, 0x80, 0xBF) }

  // ---------------------------------------------------------------- RFC 3629

  // The length of the character s begins with, 0 if it begins with none.
  function CharLen(s: string): (n: nat)
    ensures n <= 4 && n <= |s|
    ensures n > 0 ==> !Tail(s[0]) && forall i :: 1 <= i < n ==> Tail(s[i])
  {
    if |s| >= 1 && InRange(s[0], 0, 0x7F) then 1
    else if |s| >= 2 && InRange(s[0], 0xC2, 0xDF) && Tail(s[1]) then 2
    else if |s| >= 3 && Tail(s[2]) &&
      ((InRange(s[0], 0xE0, 0xE0) && InRange(s[1], 0xA0, 0xBF)) || (InRange(s[0], 0xE1, 0xEC) && Tail(s[1])) ||
       (InRange(s[0], 0xED, 0xED) && InRange(s[1], 0x80, 0x9F)) || (InRange(s[0], 0xEE, 0xEF) && Tail(s[1]))) then 3
    else if |s| >= 4 && Tail(s[2]) && Tail(s[3]) &&
      ((InRange(s[0], 0xF0, 0xF0) && InRange(s[1], 0x90, 0xBF)) || (InRange(s[0], 0xF1, 0xF3) && Tail(s[1])) ||
       (InRange(s[0], 0xF4, 0xF4) && InRange(s[1], 0x80, 0x8F))) then 4
    else 0
  }

  predicate ValidUtf8(s: string) {
    s == [] || (CharLen(s) > 0 && ValidUtf8(s[CharLen(s)..]))
  }

  lemma CharLenPrefix(s: string, k: nat)
    requires CharLen(s) <= k <= |s| && CharLen(s) > 0
    ensures CharLen(s[..k]) == CharLen(s)
  {}

  // Between characters is exactly where the next byte is no tail: both halves stay valid.
  lemma {:induction false} CutValid(s: string, k: nat)
    requires ValidUtf8(s) && k <= |s| && (k < |s| ==> !Tail(s[k]))
    ensures ValidUtf8(s[..k]) && ValidUtf8(s[k..])
    decreases |s|
  {
    if k == 0 {
      assert s[0..] == s;
    } else {
      var n := CharLen(s);
      assert n <= k;
      CutValid(s[n..], k - n);
      CharLenPrefix(s, k);
      assert s[..k][n..] == s[n..][..k - n];
      assert s[n..][k - n..] == s[k..];
    }
  }

  // A character has at most three tail bytes.
  lemma {:induction false} TailRun(s: string, from: nat, to: nat)
    requires ValidUtf8(s) && from <= to <= |s| && forall i :: from <= i < to ==> Tail(s[i])
    ensures to - from <= 3
    decreases |s|
  {
    if from < to {
      var n := CharLen(s);
      assert from > 0;
      if n < to {
        assert !Tail(s[n]) by { assert s[n..][0] == s[n]; }
        assert n < from;
        forall i | from - n <= i < to - n ensures Tail(s[n..][i]) {
          assert s[n..][i] == s[i + n];
        }
        TailRun(s[n..], from - n, to - n);
      }
    }
  }

  // ---------------------------------------------------------------- the code

  // The first position from min(size, from + chunkBytes) on that does not split a character.
  method NextUtf8Boundary(s: string, from: nat, chunkBytes: nat) returns (next: nat)
    requires from <= |s|
    ensures from <= next <= |s| && (next < |s| ==> next >= from + chunkBytes && !Tail(s[next]))
    ensures forall i :: from + chunkBytes <= i < next ==> Tail(s[i])
  {
    next := if |s| < from + chunkBytes then |s| else from + chunkBytes;
    while next < |s| && Tail(s[next])
      invariant from <= next <= |s| && (next < |s| ==> next >= from + chunkBytes)
      invariant forall i :: from + chunkBytes <= i < next ==> Tail(s[i])
    {
      next := next + 1;
    }
  }

  ghost predicate GoodPiece(piece: string) {
    piece != [] && ValidUtf8(piece) && |piece| <= 51
  }

  // The pieces replayed for an answer: in order, together the answer, each starting where
  // no character is split; if the answer is UTF-8 each piece is too, and at most 51 bytes.
  method Replay(cached: string) returns (pieces: seq<string>)
    ensures Flatten(pieces) == cached
    ensures forall i :: 0 <= i < |pieces| ==> pieces[i] != []
    ensures forall i :: 0 < i < |pieces| ==> !Tail(pieces[i][0])
    ensures forall i :: 0 <= i < |pieces| - 1 ==> |pieces[i]| >= 48
    ensures ValidUtf8(cached) ==> forall i :: 0 <= i < |pieces| ==> GoodPiece(pieces[i])
  {
    hide ValidUtf8;
    pieces := [];
    var pos := 0;
    assert cached[..0] == [] && cached[0..] == cached;
    while pos < |cached|
      invariant pos <= |cached| && Flatten(pieces) == cached[..pos]
      invariant 0 < pos < |cached| ==> !Tail(cached[pos])
      invariant pos == 0 <==> pieces == []
      invariant forall i :: 0 <= i < |pieces| ==> pieces[i] != []
      invariant forall i :: 0 < i < |pieces| ==> !Tail(pieces[i][0])
      invariant forall i :: 0 <= i < |pieces| ==> |pieces[i]| >= CHUNK_BYTES || (i == |pieces| - 1 && pos == |cached|)
      invariant ValidUtf8(cached) ==> ValidUtf8(cached[pos..])
      invariant ValidUtf8(cached) ==> forall i :: 0 <= i < |pieces| ==> GoodPiece(pieces[i])
    {
      var next := NextUtf8Boundary(cached, pos, CHUNK_BYTES);
      var piece := cached[pos..next];
      if ValidUtf8(cached) {
        PieceGood(cached, pos, next);
      }
      FlattenSnoc(pieces, piece);
      assert cached[..pos] + piece == cached[..next];
      pieces := pieces + [piece];
      pos := next;
    }
    assert cached[..pos] == cached;
  }

  lemma PieceGood(s: string, pos: nat, next: nat)
    requires pos < next <= |s| && ValidUtf8(s[pos..]) && (next < |s| ==> !Tail(s[next]))
    requires forall i :: pos + CHUNK_BYTES <= i < next ==> Tail(s[i])
    ensures GoodPiece(s[pos..next]) && ValidUtf8(s[next..])
  {
    hide ValidUtf8;
    var rest := s[pos..];
    CutValid(rest, next - pos);
    assert rest[..next - pos] == s[pos..next] && rest[next - pos..] == s[next..];
    if next > pos + CHUNK_BYTES {
      TailRun(rest, CHUNK_BYTES, next - pos);
    }
  }
}
