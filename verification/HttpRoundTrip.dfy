/**
 Parsing undoes printing: a request written in the form of RFC 9112 (sections 3,
 5 and 6.2), with any optional white space around its field values and any order
 of its fields, is read back exactly, and no byte after it is touched.
 */
module HttpRoundTrip {
  import opened HttpMessage
  import opened HttpParser
  import opened Strings

  // One field line: white space may surround the value.
  datatype Field = Field(name: string, before: string, value: string, after: string)

  datatype Message = Message(request: Request, fields: seq<Field>)

  function VersionString(v: Version): string {
    match v
    case Http10 => "HTTP/1.0"
    case Http11 => "HTTP/1.1"
    case Unknown => ""
  }

  function Target(r: Request): string {
    if r.query == "" then r.path else r.path + "?" + r.query
  }

  function RequestLine(r: Request): string {
    MethodString(r.method_) + " " + Target(r) + " " + VersionString(r.version)
  }

  function FieldLine(f: Field): string {
    f.name + ":" + f.before + f.value + f.after
  }

  // The field lines, the empty line, and what follows.
  function PrintFields(fields: seq<Field>, tail: string): string {
    if fields == [] then "\r\n" + tail
    else FieldLine(fields[0]) + "\r\n" + PrintFields(fields[1..], tail)
  }

  // The bytes of m, followed by rest.
  function Print(m: Message, rest: string): string {
    RequestLine(m.request) + "\r\n" + PrintFields(m.fields, m.request.body + rest)
  }

  // ---------------------------------------------------------------- well-formed requests

  predicate OptionalSpace(s: string) {
    forall c :: c in s ==> c == ' ' || c == '\t'
  }

  predicate WellFormedField(f: Field) {
    && ':' !in f.name && '\r' !in f.name && '\r' !in f.value
    && OptionalSpace(f.before) && OptionalSpace(f.after)
    && (f.value == "" || (!IsBlank(f.value[0]) && !IsBlank(f.value[|f.value| - 1])))
  }

  predicate DistinctNames(fields: seq<Field>) {
    forall i, j :: 0 <= i < j < |fields| ==> !SameName(fields[i].name, fields[j].name)
  }

  // Content-Length announces the body, and may be left out when there is none.
  predicate Announces(fields: seq<Field>, body: string) {
    && (forall i :: 0 <= i < |fields| && SameName(fields[i].name, "Content-Length") ==> fields[i].value == Decimal(|body|))
    && (body == "" || exists i :: 0 <= i < |fields| && SameName(fields[i].name, "Content-Length"))
  }

  predicate WellFormed(m: Message) {
    var r := m.request;
    && r.method_ != Invalid && r.version != Unknown
    && ' ' !in r.path && '?' !in r.path && '\r' !in r.path
    && ' ' !in r.query && '\r' !in r.query
    && |r.body| < 0x8000_0000
    && (forall i :: 0 <= i < |m.fields| ==> WellFormedField(m.fields[i]))
    && DistinctNames(m.fields) && Announces(m.fields, r.body)
    && (forall i :: 0 <= i < |m.fields| ==>
          m.fields[i].name in r.headers && r.headers[m.fields[i].name] == m.fields[i].value)
    && (forall k :: k in r.headers ==> exists i :: 0 <= i < |m.fields| && m.fields[i].name == k)
  }

  // ---------------------------------------------------------------- searching printed text

  lemma {:induction false} FindAt(a: string, c: char, b: string)
    requires c !in a
    ensures Find(a + [c] + b, c) == |a|
  {
    if a == [] {
      assert a + [c] + b == [c] + b;
    } else {
      FindAt(a[1..], c, b);
      assert (a + [c] + b)[1..] == a[1..] + [c] + b;
      assert (a + [c] + b)[0] == a[0];
    }
  }

  lemma {:induction false} FindNone(a: string, c: char)
    requires c !in a
    ensures Find(a, c) == |a|
  {
    if a != [] { FindNone(a[1..], c); }
  }

  lemma {:induction false} FindCrlfAt(a: string, b: string)
    requires '\r' !in a
    ensures FindCrlf(a + "\r\n" + b) == |a|
  {
    var s := a + "\r\n" + b;
    if a == [] {
      assert s[0] == '\r' && s[1] == '\n';
    } else {
      FindCrlfAt(a[1..], b);
      assert s[0] == a[0];
      assert s[1..] == a[1..] + "\r\n" + b;
    }
  }

  // ---------------------------------------------------------------- request line

  lemma SplitTarget(r: Request, path: string, query: string)
    requires '?' !in path
    ensures var target := if query == "" then path else path + "?" + query;
      var q := Find(target, '?');
      (if q == |target| then r.(path := target) else r.(path := target[..q], query := target[q + 1..]))
        == if query == "" then r.(path := path) else r.(path := path, query := query)
  {
    if query == "" {
      FindNone(path, '?');
    } else {
      FindAt(path, '?', query);
      var target := path + "?" + query;
      assert target[..|path|] == path && target[|path| + 1..] == query;
    }
  }

  lemma MethodRoundTrip(m: Method)
    requires m != Invalid
    ensures MethodOf(MethodString(m)) == m && ' ' !in MethodString(m) && '\r' !in MethodString(m)
  {}

  lemma TargetClean(r: Request)
    requires ' ' !in r.path && '\r' !in r.path && ' ' !in r.query && '\r' !in r.query
    ensures ' ' !in Target(r) && '\r' !in Target(r)
  {}

  // Cutting a line at its two blanks.
  lemma SplitLine(m: string, t: string, v: string)
    requires ' ' !in m && ' ' !in t
    ensures var line, rest := m + " " + t + " " + v, t + " " + v;
      && Find(line, ' ') == |m| < |line| && line[..|m|] == m && line[|m| + 1..] == rest
      && Find(rest, ' ') == |t| < |rest| && rest[..|t|] == t && rest[|t| + 1..] == v
  {
    hide Find;
    var rest := t + " " + v;
    assert m + " " + t + " " + v == m + [' '] + rest;
    FindAt(m, ' ', rest);
    assert rest == t + [' '] + v;
    FindAt(t, ' ', v);
  }

  lemma VersionRoundTrip(r: Request, v: Version)
    requires v != Unknown
    ensures (if VersionString(v) == "HTTP/1.1" then (true, r.(version := Http11))
             else if VersionString(v) == "HTTP/1.0" then (true, r.(version := Http10))
             else (false, r)) == (true, r.(version := v))
  {
    assert "HTTP/1.0"[7] != "HTTP/1.1"[7];
  }

  lemma RequestLineParsed(r: Request)
    requires r.method_ != Invalid && r.version != Unknown
    requires ' ' !in r.path && '?' !in r.path && ' ' !in r.query
    requires '\r' !in r.path && '\r' !in r.query
    ensures ProcessRequestLine(EMPTY_REQUEST, RequestLine(r)) ==
      (true, EMPTY_REQUEST.(method_ := r.method_, path := r.path, query := r.query, version := r.version))
  {
    hide Find, MethodOf, MethodString, VersionString;
    var m, t, v := MethodString(r.method_), Target(r), VersionString(r.version);
    MethodRoundTrip(r.method_);
    TargetClean(r);
    SplitLine(m, t, v);
    var r1 := EMPTY_REQUEST.(method_ := r.method_);
    SplitTarget(r1, r.path, r.query);
    var r2 := if r.query == "" then r1.(path := r.path) else r1.(path := r.path, query := r.query);
    VersionRoundTrip(r2, r.version);
  }

  // ---------------------------------------------------------------- fields

  lemma {:induction false} TrimLeftSpace(a: string, b: string)
    requires OptionalSpace(a) && (b == [] || !IsBlank(b[0]))
    ensures TrimLeft(a + b) == b
  {
    if a == [] {
      assert a + b == b;
    } else {
      assert a[0] in a;
      assert forall c :: c in a[1..] ==> c in a;
      TrimLeftSpace(a[1..], b);
      assert (a + b)[1..] == a[1..] + b;
    }
  }

  lemma {:induction false} TrimLeftAll(a: string)
    requires OptionalSpace(a)
    ensures TrimLeft(a) == []
  {
    TrimLeftSpace(a, []);
    assert a + [] == a;
  }

  lemma {:induction false} TrimRightSpace(b: string, a: string)
    requires OptionalSpace(a) && (b == [] || !IsBlank(b[|b| - 1]))
    ensures TrimRight(b + a) == b
    decreases |a|
  {
    if a == [] {
      assert b + a == b;
    } else {
      var last := |a| - 1;
      assert a[last] in a;
      assert forall c :: c in a[..last] ==> c in a;
      TrimRightSpace(b, a[..last]);
      assert (b + a)[..|b + a| - 1] == b + a[..last];
    }
  }

  lemma TrimField(f: Field)
    requires WellFormedField(f)
    ensures Trim(f.before + f.value + f.after) == f.value
  {
    if f.value == "" {
      var s := f.before + f.value + f.after;
      assert s == f.before + f.after;
      assert OptionalSpace(s);
      TrimLeftAll(s);
    } else {
      assert f.before + f.value + f.after == f.before + (f.value + f.after);
      assert (f.value + f.after)[0] == f.value[0];
      TrimLeftSpace(f.before, f.value + f.after);
      TrimRightSpace(f.value, f.after);
    }
  }

  lemma FieldLineParsed(r: Request, f: Field)
    requires WellFormedField(f)
    ensures ProcessHeaderLine(r, FieldLine(f)) == r.(headers := r.headers[f.name := f.value])
    ensures '\r' !in FieldLine(f) && FieldLine(f) != ""
  {
    hide Find, Trim;
    var value := f.before + f.value + f.after;
    assert FieldLine(f) == f.name + [':'] + value;
    FindAt(f.name, ':', value);
    assert FieldLine(f)[..|f.name|] == f.name && FieldLine(f)[|f.name| + 1..] == value;
    TrimField(f);
  }

  function HeadersOf(headers: map<string, string>, fields: seq<Field>): map<string, string>
    decreases |fields|
  {
    if fields == [] then headers else HeadersOf(headers[fields[0].name := fields[0].value], fields[1..])
  }

  lemma LineStep(p: Parser, line: string, tail: string)
    requires '\r' !in line && p.state.ExpectHeaders? && line != ""
    ensures Step(p, line + "\r\n" + tail) == Consume(p.(request := ProcessHeaderLine(p.request, line)), |line| + 2)
    ensures (line + "\r\n" + tail)[|line| + 2..] == tail
  {
    hide FindCrlf, ProcessHeaderLine, BodyLength;
    FindCrlfAt(line, tail);
    assert (line + "\r\n" + tail)[..|line|] == line;
  }

  lemma {:induction false} FieldsParsed(p: Parser, fields: seq<Field>, tail: string)
    requires p.state.ExpectHeaders?
    requires forall i :: 0 <= i < |fields| ==> WellFormedField(fields[i])
    ensures Parse(p, PrintFields(fields, tail)) ==
      Parse(p.(request := p.request.(headers := HeadersOf(p.request.headers, fields))), "\r\n" + tail)
    decreases |fields|
  {
    hide Parse, Step, FieldLine, ProcessHeaderLine, WellFormedField;
    if fields != [] {
      var line := FieldLine(fields[0]);
      var more := PrintFields(fields[1..], tail);
      FieldLineParsed(p.request, fields[0]);
      LineStep(p, line, more);
      ParseStep(p, line + "\r\n" + more);
      FieldsParsed(p.(request := ProcessHeaderLine(p.request, line)), fields[1..], tail);
    }
  }

  lemma {:induction false} HeadersOfAll(headers: map<string, string>, fields: seq<Field>, k: string)
    requires DistinctNames(fields)
    ensures (k in HeadersOf(headers, fields) <==> k in headers || exists i :: 0 <= i < |fields| && fields[i].name == k)
    ensures forall i :: 0 <= i < |fields| && fields[i].name == k ==> k in HeadersOf(headers, fields) && HeadersOf(headers, fields)[k] == fields[i].value
    ensures k in headers && (forall i :: 0 <= i < |fields| ==> fields[i].name != k) ==>
      k in HeadersOf(headers, fields) && HeadersOf(headers, fields)[k] == headers[k]
    decreases |fields|
  {
    if fields != [] {
      HeadersOfAll(headers[fields[0].name := fields[0].value], fields[1..], k);
      forall i | 0 < i < |fields| ensures fields[i].name != fields[0].name && fields[i] == fields[1..][i - 1] {
        assert !SameName(fields[0].name, fields[i].name);
      }
    }
  }

  lemma HeadersRead(m: Message)
    requires WellFormed(m)
    ensures HeadersOf(map[], m.fields) == m.request.headers
  {
    hide HeadersOf, Announces, WellFormedField, DistinctNames;
    var h := HeadersOf(map[], m.fields);
    forall k ensures k in h <==> k in m.request.headers {
      HeadersOfAll(map[], m.fields, k);
    }
    forall k | k in h ensures h[k] == m.request.headers[k] {
      HeadersOfAll(map[], m.fields, k);
    }
    SameMap(h, m.request.headers);
  }

  lemma SameMap<K, V>(a: map<K, V>, b: map<K, V>)
    requires forall k :: k in a ==> k in b && a[k] == b[k]
    requires forall k :: k in b ==> k in a
    ensures a == b
  {}

  // ---------------------------------------------------------------- Content-Length

  predicate AllDigits(s: string) {
    forall c :: c in s ==> IsDigit(c)
  }

  lemma {:induction false} DigitsAppend(s: string, acc: nat, d: char)
    requires AllDigits(s) && IsDigit(d)
    ensures DigitsFrom(s + [d], acc) == DigitsFrom(s, acc) * 10 + DigitVal(d)
    decreases |s|
  {
    if s == [] {
      assert s + [d] == [d];
      assert DigitsFrom([d], acc) == DigitsFrom([], acc * 10 + DigitVal(d));
    } else {
      assert s[0] in s && forall c :: c in s[1..] ==> c in s;
      DigitsAppend(s[1..], acc * 10 + DigitVal(s[0]), d);
      assert (s + [d])[1..] == s[1..] + [d];
    }
  }

  lemma {:induction false} DecimalDigits(n: nat)
    ensures AllDigits(Decimal(n)) && Decimal(n) != "" && DigitsFrom(Decimal(n), 0) == n
  {
    if n < 10 {
      var d := ('0' as int + n) as char;
      assert Decimal(n) == [d];
      assert DigitsFrom([d], 0) == DigitsFrom([], DigitVal(d));
    } else {
      DecimalDigits(n / 10);
      var d := ('0' as int + n % 10) as char;
      assert Decimal(n % 10) == [d];
      DigitsAppend(Decimal(n / 10), 0, d);
    }
  }

  lemma AtoiDecimal(n: nat)
    requires n < 0x8000_0000
    ensures Atoi(Decimal(n)) == n && Decimal(n) != ""
  {
    hide DigitsFrom;
    DecimalDigits(n);
    assert Decimal(n)[0] in Decimal(n);
    assert SkipSpace(Decimal(n)) == Decimal(n);
  }

  lemma {:induction false} DigitsStop(s: string, acc: nat, rest: string)
    requires AllDigits(s) && (rest == "" || !IsDigit(rest[0]))
    ensures DigitsFrom(s + rest, acc) == DigitsFrom(s, acc)
    decreases |s|
  {
    if s == "" {
      assert s + rest == rest;
    } else {
      assert s[0] in s && forall c :: c in s[1..] ==> c in s;
      assert (s + rest)[0] == s[0] && (s + rest)[1..] == s[1..] + rest;
      DigitsStop(s[1..], acc * 10 + DigitVal(s[0]), rest);
    }
  }

  lemma {:induction false} SpacesSkipped(spaces: string, t: string)
    requires (forall i :: 0 <= i < |spaces| ==> IsSpace(spaces[i])) && (t == "" || !IsSpace(t[0]))
    ensures SkipSpace(spaces + t) == t
    decreases |spaces|
  {
    if spaces == "" {
      assert spaces + t == t;
    } else {
      assert (spaces + t)[0] == spaces[0] && (spaces + t)[1..] == spaces[1..] + t;
      SpacesSkipped(spaces[1..], t);
    }
  }

  // What may stand around a numeral: blanks or characters 9 to 13 and a sign before it, anything
  // but a digit after.
  predicate Around(spaces: string, sign: string, rest: string) {
    && (forall i :: 0 <= i < |spaces| ==> spaces[i] == ' ' || 9 <= spaces[i] as int <= 13)
    && (sign == "" || sign == "+" || sign == "-")
    && (rest == "" || !IsDigit(rest[0]))
  }

  lemma WrapFacts(v: int)
    ensures (WrapInt(v) - v) % TWO_32 == 0
    ensures -0x8000_0000 <= v < 0x8000_0000 ==> WrapInt(v) == v
    ensures v == LONG_MAX ==> WrapInt(v) == -1
    ensures v == -LONG_MAX - 1 ==> WrapInt(v) == 0
  {}

  // atoi of a signed numeral is the number up to 2^31 - 1, agrees with it modulo 2^32 as far as
  // a long reaches, and is -1 or 0 beyond.
  lemma AtoiSigned(spaces: string, sign: string, n: nat, rest: string)
    requires Around(spaces, sign, rest)
    ensures var v: int := if sign == "-" then -(n as int) else n as int;
      var r := Atoi(spaces + (sign + Decimal(n) + rest));
      && (n < 0x8000_0000 ==> r == v)
      && (n <= LONG_MAX ==> (r - v) % TWO_32 == 0)
      && (n > LONG_MAX + 1 ==> r == if sign == "-" then 0 else -1)
  {
    hide DigitsFrom, SkipSpace, Decimal, WrapInt;
    var d := Decimal(n);
    var t := sign + d + rest;
    DecimalDigits(n);
    DigitsStop(d, 0, rest);
    assert d[0] in d;
    assert sign == "" ==> t == d + rest && t[0] == d[0];
    assert sign != "" ==> t[0] == sign[0] && t[1..] == d + rest;
    SpacesSkipped(spaces, t);
    var v: int := if sign == "-" then -(n as int) else n as int;
    WrapFacts(v);
    WrapFacts(LONG_MAX);
    WrapFacts(-LONG_MAX - 1);
  }

  // And 0 where there is no numeral.
  lemma AtoiNone(spaces: string, sign: string, rest: string)
    requires Around(spaces, sign, rest) && (sign == "" && rest != "" ==> !IsSpace(rest[0]) && rest[0] != '+' && rest[0] != '-')
    ensures Atoi(spaces + (sign + rest)) == 0
  {
    hide SkipSpace;
    var t := sign + rest;
    assert sign == "" ==> t == rest;
    assert sign != "" ==> t[0] == sign[0] && t[1..] == rest;
    SpacesSkipped(spaces, t);
  }

  // A negative length is taken for an enormous one.
  lemma NegativeLength(headers: map<string, string>, n: nat)
    requires 0 < n < 0x8000_0000 && GetHeader(headers, "Content-Length") == "-" + Decimal(n)
    ensures BodyLength(headers) == TWO_64 - n
  {
    hide GetHeader, Atoi;
    AtoiSigned("", "-", n, "");
    assert "" + ("-" + Decimal(n) + "") == "-" + Decimal(n);
  }

  lemma BodyLengthRead(m: Message)
    requires WellFormed(m)
    ensures BodyLength(m.request.headers) == |m.request.body|
  {
    hide SameName, Atoi, WellFormedField;
    var h := m.request.headers;
    var field := "Content-Length";
    AtoiDecimal(|m.request.body|);
    if i :| 0 <= i < |m.fields| && SameName(m.fields[i].name, field) {
      forall k | k in h && SameName(k, field) ensures k == m.fields[i].name {
        var j :| 0 <= j < |m.fields| && m.fields[j].name == k;
        SameNameBoth(m.fields[i].name, k, field);
      }
      GetHeaderUnique(h, field, m.fields[i].name);
    } else {
      forall k | k in h ensures !SameName(k, field) {
        var j :| 0 <= j < |m.fields| && m.fields[j].name == k;
      }
      GetHeaderNone(h, field);
    }
  }

  lemma SameNameBoth(a: string, b: string, field: string)
    requires SameName(a, field) && SameName(b, field)
    ensures SameName(a, b) && SameName(b, a)
  {}

  // ---------------------------------------------------------------- the round trip

  lemma BodyParsed(p: Parser, body: string, rest: string)
    requires p.state.ExpectHeaders? && p.request.body == "" && BodyLength(p.request.headers) == |body|
    ensures Parse(p, "\r\n" + body + rest) ==
      Outcome(true, Parser(GotAll, p.request.(body := body), |body|), rest)
  {
    hide BodyLength;
    var s := "\r\n" + body + rest;
    assert FindCrlf(s) == 0 by { assert s[0] == '\r' && s[1] == '\n'; }
    assert s[2..] == body + rest;
    var q := p.(bodyExpected := |body|, state := if |body| > 0 then ExpectBody else GotAll);
    assert Step(p, s) == Consume(q, 2);
    assert Parse(p, s) == Parse(q, body + rest);
    assert (body + rest)[..|body|] == body && (body + rest)[|body|..] == rest;
    if |body| == 0 {
      assert body + rest == rest;
    } else {
      var done := q.(request := q.request.(body := body), state := GotAll);
      assert Step(q, body + rest) == Consume(done, |body|);
      assert Parse(q, body + rest) == Parse(done, rest);
    }
  }

  // Reading what was printed gives back the request, and leaves exactly what followed it.
  lemma RoundTrip(m: Message, rest: string)
    requires WellFormed(m)
    ensures Parse(INIT, Print(m, rest)) == Outcome(true, Parser(GotAll, m.request, |m.request.body|), rest)
  {
    hide Parse, Step, ProcessRequestLine, RequestLine, Announces, DistinctNames, WellFormedField, BodyLength, HeadersOf;
    var r := m.request;
    var line, tail := RequestLine(r), r.body + rest;
    var lines := PrintFields(m.fields, tail);
    RequestLineParsed(r);
    RequestLineClean(r);
    FirstStep(line, lines);
    ParseStep(INIT, line + "\r\n" + lines);
    var p := INIT.(request := ProcessRequestLine(EMPTY_REQUEST, line).1, state := ExpectHeaders);
    FieldsParsed(p, m.fields, tail);
    HeadersRead(m);
    BodyLengthRead(m);
    assert "\r\n" + tail == "\r\n" + r.body + rest;
    BodyParsed(p.(request := p.request.(headers := r.headers)), r.body, rest);
  }

  lemma RequestLineClean(r: Request)
    requires r.method_ != Invalid && ' ' !in r.path && '\r' !in r.path && ' ' !in r.query && '\r' !in r.query
    ensures '\r' !in RequestLine(r)
  {
    MethodRoundTrip(r.method_);
    TargetClean(r);
    hide Target;
  }

  lemma FirstStep(line: string, lines: string)
    requires '\r' !in line && ProcessRequestLine(EMPTY_REQUEST, line).0
    ensures Step(INIT, line + "\r\n" + lines) ==
      Consume(INIT.(request := ProcessRequestLine(EMPTY_REQUEST, line).1, state := ExpectHeaders), |line| + 2)
    ensures (line + "\r\n" + lines)[|line| + 2..] == lines
  {
    hide FindCrlf, ProcessRequestLine;
    FindCrlfAt(line, lines);
    assert (line + "\r\n" + lines)[..|line|] == line;
  }

  // ---------------------------------------------------------------- what is refused

  const METHODS: set<string> := {"GET", "POST", "PUT", "PATCH", "DELETE"}
  const VERSIONS: set<string> := {"HTTP/1.0", "HTTP/1.1"}

  // A method, a target and a version, with a blank between them.
  predicate IsRequestLine(line: string, m: string, t: string, v: string) {
    line == m + " " + t + " " + v && ' ' !in m && ' ' !in t && m in METHODS && v in VERSIONS
  }

  lemma MethodKnown(m: string)
    ensures MethodOf(m) != Invalid <==> m in METHODS
  {}

  // A request line is accepted exactly if it has that form.
  lemma RequestLineIff(r: Request, line: string)
    ensures ProcessRequestLine(r, line).0 <==> exists m, t, v :: IsRequestLine(line, m, t, v)
  {
    hide Find, MethodOf, METHODS;
    if ProcessRequestLine(r, line).0 {
      var i := Find(line, ' ');
      var m, rest := line[..i], line[i + 1..];
      var j := Find(rest, ' ');
      var t, v := rest[..j], rest[j + 1..];
      MethodKnown(m);
      assert rest == t + [' '] + v && line == m + [' '] + rest;
      assert line == m + " " + t + " " + v;
      assert IsRequestLine(line, m, t, v);
    }
    if m, t, v :| IsRequestLine(line, m, t, v) {
      SplitLine(m, t, v);
      MethodKnown(m);
    }
  }

  lemma {:induction false} NeverRefused(p: Parser, buf: string)
    requires p.state != ExpectRequestLine
    ensures Parse(p, buf).ok
    decreases |buf|, Rank(p.state)
  {
    hide FindCrlf, ProcessHeaderLine, BodyLength;
    var r := Step(p, buf);
    if r.Consume? {
      StepProgress(p, buf);
      NeverRefused(r.parser, buf[r.used..]);
    }
  }

  // A message is refused exactly if its first line is there and is no request line.
  lemma RefusedIff(buf: string)
    ensures var n := FindCrlf(buf);
      Parse(INIT, buf).ok <==> n == |buf| || exists m, t, v :: IsRequestLine(buf[..n], m, t, v)
  {
    hide FindCrlf, ProcessRequestLine, IsRequestLine, Parse;
    var n, r := FindCrlf(buf), Step(INIT, buf);
    ParseStep(INIT, buf);
    if n < |buf| {
      RequestLineIff(INIT.request, buf[..n]);
      if r.Consume? { NeverRefused(r.parser, buf[r.used..]); }
    }
  }

  // A refused message is left as it is, but for a method already read.
  lemma RefusedLeaves(m: string, more: string, rest: string)
    requires m in METHODS && '\r' !in more && !exists t, v :: IsRequestLine(m + " " + more, m, t, v)
    ensures var buf, r := m + " " + more + "\r\n" + rest, Parse(INIT, m + " " + more + "\r\n" + rest);
      !r.ok && r.rest == buf && r.parser.state == ExpectRequestLine && r.parser.request.method_ == MethodOf(m)
  {
    hide FindCrlf, IsRequestLine, Parse, Find, MethodOf;
    var line := m + " " + more;
    var buf := line + "\r\n" + rest;
    MethodClean(m);
    FindCrlfAt(line, rest);
    assert buf[..|line|] == line;
    RefusedMethod(m, more);
    ParseStep(INIT, buf);
  }

  lemma MethodClean(m: string)
    requires m in METHODS
    ensures ' ' !in m && '\r' !in m && MethodOf(m) != Invalid
  {}

  lemma RefusedMethod(m: string, more: string)
    requires m in METHODS && !exists t, v :: IsRequestLine(m + " " + more, m, t, v)
    ensures var r := ProcessRequestLine(EMPTY_REQUEST, m + " " + more); !r.0 && r.1.method_ == MethodOf(m)
  {
    hide Find, MethodOf, METHODS, IsRequestLine;
    var line := m + " " + more;
    MethodClean(m);
    FindAt(m, ' ', more);
    assert line == m + [' '] + more && line[..|m|] == m && line[|m| + 1..] == more;
    if ProcessRequestLine(EMPTY_REQUEST, line).0 {
      var j := Find(more, ' ');
      TwoParts(m, more, j);
    }
  }

  lemma Joined(m: string, t: string, v: string)
    ensures m + " " + (t + [' '] + v) == m + " " + t + " " + v
  {}

  lemma TwoParts(m: string, more: string, j: nat)
    requires m in METHODS && j == Find(more, ' ') < |more| && ' ' !in m && more[j + 1..] in VERSIONS
    ensures IsRequestLine(m + " " + more, m, more[..j], more[j + 1..])
  {
    hide METHODS, VERSIONS, Find;
    var t, v := more[..j], more[j + 1..];
    assert more == t + [' '] + v;
    Joined(m, t, v);
  }

  // A line without a colon among the fields is passed over.
  lemma ColonlessSkipped(p: Parser, line: string, rest: string)
    requires p.state.ExpectHeaders? && line != "" && ':' !in line && '\r' !in line
    ensures Parse(p, line + "\r\n" + rest) == Parse(p, rest)
  {
    hide FindCrlf, Find, Parse;
    var buf := line + "\r\n" + rest;
    FindCrlfAt(line, rest);
    FindNone(line, ':');
    assert buf[..|line|] == line && buf[|line| + 2..] == rest;
    ParseStep(p, buf);
  }

  // ---------------------------------------------------------------- one request, byte by byte

  const SAMPLE := Message(
    Request(POST, Http11, "/a", "x=1", map["content-LENGTH" := "2"], "hi"), [Field("content-LENGTH", " \t", "2", " ")])

  lemma SampleField(f: Field)
    requires f == SAMPLE.fields[0]
    ensures WellFormedField(f)
  {}

  lemma SampleAnnounces(f: Field, body: string)
    requires f.name == "content-LENGTH" && f.value == "2" && |body| == 2
    ensures Announces([f], body)
  {
    hide LowerAll, CStr, SameName;
    assert Decimal(2) == "2";
    SameNameIff(f.name, "Content-Length");
    assert SameName([f][0].name, "Content-Length");
  }

  lemma SampleWellFormed()
    ensures WellFormed(SAMPLE)
  {
    hide WellFormedField, SameName, Announces;
    SampleField(SAMPLE.fields[0]);
    SampleAnnounces(SAMPLE.fields[0], SAMPLE.request.body);
    assert SAMPLE.fields == [SAMPLE.fields[0]];
    assert SAMPLE.fields[0].name in SAMPLE.request.headers;
  }

  lemma SampleLines()
    ensures RequestLine(SAMPLE.request) == "POST /a?x=1 HTTP/1.1"
    ensures FieldLine(SAMPLE.fields[0]) == "content-LENGTH: \t2 "
  {
    assert Target(SAMPLE.request) == "/a?x=1";
  }

  // On the wire: a request with a query, a body, and one field, its name in another case and
  // white space around its value.
  lemma SampleParsed(rest: string)
    ensures Parse(INIT, "POST /a?x=1 HTTP/1.1" + "\r\n" + ("content-LENGTH: \t2 " + "\r\n" + ("\r\n" + ("hi" + rest)))) ==
      Outcome(true, Parser(GotAll, SAMPLE.request, 2), rest)
  {
    hide Parse, WellFormed, RequestLine, FieldLine;
    SampleWellFormed();
    RoundTrip(SAMPLE, rest);
    SampleLines();
    var tail := "hi" + rest;
    assert SAMPLE.fields[1..] == [];
    assert PrintFields([], tail) == "\r\n" + tail;
    assert PrintFields(SAMPLE.fields, tail) == FieldLine(SAMPLE.fields[0]) + "\r\n" + PrintFields([], tail);
    assert SAMPLE.request.body == "hi" && |SAMPLE.request.body| == 2;
    assert Print(SAMPLE, rest) == RequestLine(SAMPLE.request) + "\r\n" + PrintFields(SAMPLE.fields, tail);
  }

  // However the network cuts the message and what follows it, the request comes out whole.
  lemma RoundTripInPieces(m: Message, rest: string, arrivals: seq<string>)
    requires WellFormed(m) && Flatten(arrivals) == Print(m, rest)
    ensures ParseReads(INIT, "", arrivals) == Outcome(true, Parser(GotAll, m.request, |m.request.body|), rest)
  {
    hide Parse, WellFormed, Print;
    AnyFragmentation(INIT, "", arrivals);
    assert "" + Flatten(arrivals) == Flatten(arrivals);
    RoundTrip(m, rest);
  }
}
