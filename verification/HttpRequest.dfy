/**
 The request value of src/http/HttpRequest.cc and the C library routines its
 parsing leans on. Strings hold bytes: a char stands for the byte of its code.
 */
module HttpMessage {

  datatype Method = Invalid | GET | POST | PUT | PATCH | DELETE
  datatype Version = Unknown | Http10 | Http11

  datatype Request = Request(
    method_: Method, version: Version, path: string, query: string,
    headers: map<string, string>, body: string)

  const EMPTY_REQUEST := Request(Invalid, Unknown, "", "", map[], "")

  // ---------------------------------------------------------------- searching

  // std::find: the first position of c, or the length.
  function Find(s: string, c: char): (i: nat)
    ensures i <= |s| && c !in s[..i]
    ensures i < |s| ==> s[i] == c
  {
    if s == [] then 0 else if s[0] == c then 0
    else
      var i := 1 + Find(s[1..], c);
      assert s[..i] == [s[0]] + s[1..][..i - 1];
      i
  }

  // std::search for "\r\n": its first position, or the length.
  function FindCrlf(s: string): (i: nat)
    ensures i <= |s|
    ensures i < |s| ==> i + 2 <= |s| && s[i..i + 2] == "\r\n"
    ensures forall j :: 0 <= j && j + 1 < |s| && j < i ==> !(s[j] == '\r' && s[j + 1] == '\n')
  {
    if |s| < 2 then |s|
    else if s[0] == '\r' && s[1] == '\n' then 0
    else
      var i := 1 + FindCrlf(s[1..]);
      assert i < |s| ==> s[i..i + 2] == s[1..][i - 1..i + 1];
      assert forall j :: 1 <= j < |s| ==> s[j] == s[1..][j - 1];
      i
  }

  // ---------------------------------------------------------------- methods and versions

  function MethodOf(m: string): Method {
    if m == "GET" then GET
    else if m == "POST" then POST
    else if m == "PUT" then PUT
    else if m == "PATCH" then PATCH
    else if m == "DELETE" then DELETE
    else Invalid
  }

  function MethodString(m: Method): string {
    match m
    case GET => "GET"
    case POST => "POST"
    case PUT => "PUT"
    case PATCH => "PATCH"
    case DELETE => "DELETE"
    case Invalid => "INVALID"
  }

  // ---------------------------------------------------------------- header values

  predicate IsBlank(c: char) { c == ' ' || c == '\t' || c == '\r' || c == '\n' }

  function TrimLeft(s: string): (r: string)
    ensures r == [] || !IsBlank(r[0])
  {
    if s != [] && IsBlank(s[0]) then TrimLeft(s[1..]) else s
  }

  function TrimRight(s: string): (r: string)
    ensures r == [] || !IsBlank(r[|r| - 1])
    ensures r <= s
  {
    if s != [] && IsBlank(s[|s| - 1]) then TrimRight(s[..|s| - 1]) else s
  }

  function Trim(s: string): string {
    TrimRight(TrimLeft(s))
  }

  function AddHeader(headers: map<string, string>, key: string, value: string): map<string, string> {
    headers[key := Trim(value)]
  }

  // Blanks, tabs and line ends.
  predicate Blank(s: string) {
    forall i :: 0 <= i < |s| ==> s[i] == ' ' || s[i] == '\t' || s[i] == '\r' || s[i] == '\n'
  }

  predicate Bare(v: string) { v == "" || (!Blank(v[..1]) && !Blank(v[|v| - 1..])) }

  lemma {:induction false} TrimLeftExactly(before: string, v: string)
    requires Blank(before) && (v == "" || !Blank(v[..1]))
    ensures TrimLeft(before + v) == v
    decreases |before|
  {
    if before == "" {
      assert before + v == v;
    } else {
      assert (before + v)[0] == before[0] && (before + v)[1..] == before[1..] + v;
      TrimLeftExactly(before[1..], v);
    }
  }

  lemma {:induction false} TrimRightExactly(v: string, after: string)
    requires Blank(after) && (v == "" || !Blank(v[|v| - 1..]))
    ensures TrimRight(v + after) == v
    decreases |after|
  {
    if after == "" {
      assert v + after == v;
    } else {
      var s := v + after;
      assert s[|s| - 1] == after[|after| - 1] && s[..|s| - 1] == v + after[..|after| - 1];
      TrimRightExactly(v, after[..|after| - 1]);
    }
  }

  // A stored value is what it is without any of those around it.
  lemma TrimExactly(before: string, v: string, after: string)
    requires Blank(before) && Blank(after) && Bare(v)
    ensures Trim(before + v + after) == v
  {
    hide TrimLeft, TrimRight;
    if v == "" {
      var all := before + after;
      assert before + v + after == all;
      assert all + "" == all;
      TrimLeftExactly(all, "");
      TrimRightExactly("", "");
      assert "" + "" == "";
    } else {
      assert before + v + after == before + (v + after);
      assert (v + after)[..1] == v[..1];
      TrimLeftExactly(before, v + after);
      TrimRightExactly(v, after);
    }
  }

  // ---------------------------------------------------------------- header lookup

  function Lower(c: char): char {
    if 'A' <= c <= 'Z' then (c as int + 32) as char else c
  }

  function LowerAll(s: string): string {
    seq(|s|, i requires 0 <= i < |s| => Lower(s[i]))
  }

  // A C string ends at its first NUL.
  function CStr(s: string): string {
    s[..Find(s, '\0')]
  }

  // strcasecmp(a, b) == 0 in the C locale.
  predicate SameName(a: string, b: string) {
    LowerAll(CStr(a)) == LowerAll(CStr(b))
  }

  // The order std::map keeps its keys in.
  predicate LexLe(a: string, b: string) {
    a == [] || (b != [] && (a[0] < b[0] || (a[0] == b[0] && LexLe(a[1..], b[1..]))))
  }

  // The first of s in the order std::map keeps its keys.
  predicate Least(s: set<string>, k: string) {
    k in s && forall j :: j in s ==> LexLe(k, j)
  }

  // The value under the first key, in map order, that matches the field name.
  function GetHeader(headers: map<string, string>, field: string): string {
    var named := set k | k in headers && SameName(k, field);
    if named == {} then ""
    else
      LeastExists(named);
      LeastUnique(named);
      var k :| Least(named, k);
      headers[k]
  }

  lemma {:induction false} LexAntisymmetric(a: string, b: string)
    requires LexLe(a, b) && LexLe(b, a)
    ensures a == b
  {
    if a != [] && b != [] {
      LexAntisymmetric(a[1..], b[1..]);
      assert a == [a[0]] + a[1..] && b == [b[0]] + b[1..];
    }
  }

  lemma {:induction false} LexTransitive(a: string, b: string, c: string)
    requires LexLe(a, b) && LexLe(b, c)
    ensures LexLe(a, c)
  {
    if a != [] && a[0] == b[0] && b[0] == c[0] {
      LexTransitive(a[1..], b[1..], c[1..]);
    }
  }

  lemma {:induction false} LexTotal(a: string, b: string)
    ensures LexLe(a, b) || LexLe(b, a)
  {
    if a != [] && b != [] && a[0] == b[0] {
      LexTotal(a[1..], b[1..]);
    }
  }

  lemma LeastUnique(s: set<string>)
    ensures forall k, l :: Least(s, k) && Least(s, l) ==> k == l
  {
    forall k, l | Least(s, k) && Least(s, l) ensures k == l {
      LexAntisymmetric(k, l);
    }
  }

  lemma LeastOfMore(s: set<string>, x: string, m: string)
    requires x in s && Least(s - {x}, m) && LexLe(x, x) && (LexLe(x, m) || LexLe(m, x))
    ensures exists k :: Least(s, k)
  {
    if LexLe(x, m) {
      forall j | j in s ensures LexLe(x, j) {
        if j != x {
          assert j in s - {x};
          LexTransitive(x, m, j);
        }
      }
      assert Least(s, x);
    } else {
      forall j | j in s ensures LexLe(m, j) {
        if j != x { assert j in s - {x}; }
      }
      assert Least(s, m);
    }
  }

  lemma {:induction false} LeastExists(s: set<string>)
    requires s != {}
    ensures exists k :: Least(s, k)
    decreases |s|
  {
    var x :| x in s;
    var rest := s - {x};
    LexTotal(x, x);
    if rest == {} {
      assert forall j :: j in s ==> j == x || j in rest;
      assert Least(s, x);
    } else {
      LeastExists(rest);
      var m :| Least(rest, m);
      LexTotal(x, m);
      LeastOfMore(s, x, m);
    }
  }

  // ---------------------------------------------------------------- names apart from case

  predicate IsLetter(c: char) { 'A' <= c <= 'Z' || 'a' <= c <= 'z' }

  // The same letter in either case, or the same character.
  predicate Alike(c: char, d: char) {
    c == d || (IsLetter(c) && IsLetter(d) && (c as int - d as int == 32 || d as int - c as int == 32))
  }

  predicate AllAlike(a: string, b: string) {
    |a| == |b| && forall i :: 0 <= i < |a| ==> Alike(a[i], b[i])
  }

  lemma LowerIff(c: char, d: char)
    ensures Lower(c) == Lower(d) <==> Alike(c, d)
  {}

  lemma {:induction false} NulAt(a: string, x: string)
    requires '\0' !in a
    ensures Find(a, '\0') == |a| && Find(a + "\0" + x, '\0') == |a|
  {
    var s := a + "\0" + x;
    if a != "" {
      assert s[0] == a[0] && s[1..] == a[1..] + "\0" + x;
      NulAt(a[1..], x);
    }
  }

  lemma NoNul(a: string)
    requires '\0' !in a
    ensures CStr(a) == a
  {
    NulAt(a, "");
    assert a[..|a|] == a;
  }

  // Two names without NUL match exactly when they agree but for the case of letters.
  lemma SameNameIff(a: string, b: string)
    requires '\0' !in a && '\0' !in b
    ensures SameName(a, b) <==> AllAlike(a, b)
  {
    hide Lower;
    NoNul(a);
    NoNul(b);
    var x, y := LowerAll(a), LowerAll(b);
    if |a| == |b| {
      forall i | 0 <= i < |a| ensures x[i] == y[i] <==> Alike(a[i], b[i]) { LowerIff(a[i], b[i]); }
    }
  }

  // A NUL ends a name.
  lemma SameNameNul(a: string, x: string, b: string)
    requires '\0' !in a
    ensures SameName(a + "\0" + x, b) == SameName(a, b)
  {
    NoNul(a);
    NulAt(a, x);
    assert (a + "\0" + x)[..|a|] == a;
  }

  // So the only field whose name agrees but for case is the one looked up.
  lemma GetHeaderAnyCase(headers: map<string, string>, field: string, k: string)
    requires '\0' !in field && forall j :: j in headers ==> '\0' !in j
    requires k in headers && AllAlike(k, field) && forall j :: j in headers && AllAlike(j, field) ==> j == k
    ensures GetHeader(headers, field) == headers[k]
  {
    hide SameName, AllAlike;
    forall j | j in headers ensures SameName(j, field) <==> AllAlike(j, field) { SameNameIff(j, field); }
    GetHeaderUnique(headers, field, k);
  }

  // The lookup finds the only key that matches.
  lemma GetHeaderUnique(headers: map<string, string>, field: string, k: string)
    requires k in headers && SameName(k, field)
    requires forall j :: j in headers && SameName(j, field) ==> j == k
    ensures GetHeader(headers, field) == headers[k]
  {
    var named := set j | j in headers && SameName(j, field);
    assert k in named;
    LeastExists(named);
    assert k in named && forall j :: j in named ==> j == k;
  }

  lemma GetHeaderNone(headers: map<string, string>, field: string)
    requires forall j :: j in headers ==> !SameName(j, field)
    ensures GetHeader(headers, field) == ""
  {
    var named := set j | j in headers && SameName(j, field);
    assert forall j :: j in named ==> j in headers;
  }

  // a comes before b: it is the beginning of b, or smaller at the first byte where they differ.
  predicate Precedes(a: string, b: string, i: nat) {
    i <= |a| && i <= |b| && a[..i] == b[..i] && i < |b| && (i == |a| || a[i] < b[i])
  }

  lemma {:induction false} PrecedesLex(a: string, b: string, i: nat)
    requires Precedes(a, b, i)
    ensures LexLe(a, b) && a != b
    decreases i
  {
    if i > 0 {
      assert a[0] == a[..i][0] == b[..i][0] == b[0];
      assert a[1..][..i - 1] == a[..i][1..] && b[1..][..i - 1] == b[..i][1..];
      PrecedesLex(a[1..], b[1..], i - 1);
    }
  }

  // Of two fields whose names match the lookup takes the one that comes first as bytes.
  lemma GetHeaderFirst(headers: map<string, string>, field: string, k: string, l: string, i: nat)
    requires k in headers && l in headers && SameName(k, field) && SameName(l, field) && Precedes(k, l, i)
    requires forall j :: j in headers && SameName(j, field) ==> j == k || j == l
    ensures GetHeader(headers, field) == headers[k]
  {
    hide SameName;
    var named := set j | j in headers && SameName(j, field);
    PrecedesLex(k, l, i);
    LexTotal(k, k);
    assert Least(named, k);
    LeastUnique(named);
  }

  // ---------------------------------------------------------------- Content-Length

  predicate IsDigit(c: char) { '0' <= c <= '9' }

  function DigitVal(c: char): (d: nat)
    requires IsDigit(c)
    ensures d < 10
  {
    c as int - '0' as int
  }

  // The value of the longest run of digits that starts s, continuing from acc.
  function DigitsFrom(s: string, acc: nat): nat {
    if s != [] && IsDigit(s[0]) then DigitsFrom(s[1..], acc * 10 + DigitVal(s[0])) else acc
  }

  predicate IsSpace(c: char) { c == ' ' || '\t' <= c <= '\r' }

  function SkipSpace(s: string): string {
    if s != [] && IsSpace(s[0]) then SkipSpace(s[1..]) else s
  }

  const LONG_MAX := 0x7fff_ffff_ffff_ffff
  const TWO_32 := 0x1_0000_0000
  const TWO_64 := 0x1_0000_0000_0000_0000

  function WrapInt(x: int): (r: int)
    ensures -0x8000_0000 <= r < 0x8000_0000
  {
    var m := x % TWO_32;
    if m < 0x8000_0000 then m else m - TWO_32
  }

  // atoi as the GNU C library defines it: strtol, which saturates, cut to an int.
  function Atoi(s: string): (r: int)
    ensures -0x8000_0000 <= r < 0x8000_0000
  {
    var t := SkipSpace(s);
    var v :=
      if t != [] && t[0] == '-' then -(DigitsFrom(t[1..], 0) as int)
      else if t != [] && t[0] == '+' then DigitsFrom(t[1..], 0)
      else DigitsFrom(t, 0);
    WrapInt(if v > LONG_MAX then LONG_MAX else if v < -LONG_MAX - 1 then -LONG_MAX - 1 else v)
  }

  // static_cast<size_t>(atoi(...)): a negative length becomes enormous.
  function BodyLength(headers: map<string, string>): (n: nat) {
    var value := GetHeader(headers, "Content-Length");
    if value == "" then 0 else Atoi(value) % TWO_64
  }
}
