/**
 The scalars json.loads returns besides strings, how Python compares them, and the text
 json.dumps gives them. A float is a binary64 number; it is named by the decimal repr
 writes, the shortest that rounds to it.
 */
module Numbers {
  import opened Strings

  datatype Scalar = Null | Bool(b: bool) | Int(n: int) | Float(x: Double)

  // Finite stands for 0.d1...dn times ten to the power of point, zero for "0" and 1.
  datatype Double = Finite(negative: bool, digits: string, point: int) | Infinite(negative: bool) | NaN

  // ---------------------------------------------------------------- binary64

  // x times base to the power of k.
  function Times(x: real, base: nat, k: int): real
    requires base > 0
    decreases if k < 0 then -k else k
  {
    if k == 0 then x
    else if k > 0 then Times(x * base as real, base, k - 1)
    else Times(x / base as real, base, k + 1)
  }

  function Abs(x: real): real { if x < 0.0 then -x else x }

  function Scaled(m: int, e: int): real { Times(m as real, 2, e) }

  ghost predicate IsDouble(x: real) {
    exists m: int, e: int :: x == Scaled(m, e) && -0x20_0000_0000_0000 < m < 0x20_0000_0000_0000 && -1074 <= e <= 971
  }

  // x and y are neighbours, and x is the even one.
  ghost predicate EvenNeighbour(x: real, y: real) {
    exists m: int, e: int :: x == Scaled(m, e) && m % 2 == 0 && -1074 <= e && (y == Scaled(m + 1, e) || y == Scaled(m - 1, e))
  }

  // The double x is nearest to q; of two the even one. From half a unit above the largest on, q overflows.
  ghost predicate Rounds(q: real, x: real) {
    && IsDouble(x) && Abs(q) < Scaled(0x3F_FFFF_FFFF_FFFF, 970)
    && forall y: real :: IsDouble(y) && y != x ==>
         Abs(q - x) < Abs(q - y) || (Abs(q - x) == Abs(q - y) && EvenNeighbour(x, y))
  }

  // ---------------------------------------------------------------- repr

  predicate AllDigits(s: string) { forall i :: 0 <= i < |s| ==> '0' <= s[i] <= '9' }

  function Number(s: string): nat
    requires AllDigits(s)
  {
    if s == "" then 0 else 10 * Number(s[..|s| - 1]) + (s[|s| - 1] - '0') as nat
  }

  predicate NormalDigits(digits: string, point: int) {
    && digits != "" && AllDigits(digits)
    && if digits == "0" then point == 1 else digits[0] != '0' && digits[|digits| - 1] != '0'
  }

  predicate Normal(x: Double) { x.Finite? && NormalDigits(x.digits, x.point) }

  function Value(x: Double): real
    requires Normal(x)
  {
    var v := Times(Number(x.digits) as real, 10, x.point - |x.digits|);
    if x.negative then -v else v
  }

  // As a name for the double v: x is shorter than y, or as short and closer; of two equally
  // close the one that ends in an even digit.
  ghost predicate Better(x: Double, y: Double, v: real)
    requires Normal(x) && Normal(y)
  {
    var n, far, farther := |x.digits|, Abs(Value(x) - v), Abs(Value(y) - v);
    n < |y.digits| || (n == |y.digits| &&
      (far < farther || (far == farther && (Value(x) == Value(y) || (x.digits[n - 1] - '0') as nat % 2 == 0))))
  }

  ghost predicate IsBest(x: Double, v: real)
    requires Normal(x)
  {
    forall y: Double :: Normal(y) && Rounds(Value(y), v) ==> Better(x, y, v)
  }

  // What repr can write.
  ghost predicate IsRepr(x: Double) {
    x.Finite? ==> Normal(x) && exists v: real :: Rounds(Value(x), v) && IsBest(x, v)
  }

  ghost predicate IsScalar(a: Scalar) { a.Float? ==> IsRepr(a.x) }

  // ---------------------------------------------------------------- equality

  predicate IsWhole(a: Scalar) { a.Bool? || a.Int? }

  // True is 1 and False is 0.
  function AsInt(a: Scalar): int
    requires IsWhole(a)
  {
    match a
    case Bool(b) => if b then 1 else 0
    case Int(n) => n
  }

  predicate IsZero(x: Double) { x.Finite? && x.digits == "0" }

  // Python's ==, and for NaN identity, which json.loads makes of any two of them.
  ghost predicate Equal(a: Scalar, b: Scalar) {
    if IsWhole(a) && IsWhole(b) then AsInt(a) == AsInt(b)
    else if a.Float? && b.Float? then a.x == b.x || (IsZero(a.x) && IsZero(b.x))
    else if a.Float? && IsWhole(b) then Stands(a.x, AsInt(b))
    else if b.Float? && IsWhole(a) then Stands(b.x, AsInt(a))
    else a.Null? && b.Null?
  }

  // The double is exactly the integer n.
  ghost predicate Stands(x: Double, n: int) { Normal(x) && Rounds(Value(x), n as real) }

  datatype Kind = NullKind | BoolKind | IntKind | FloatKind

  function KindOf(a: Scalar): Kind {
    match a
    case Null => NullKind
    case Bool(_) => BoolKind
    case Int(_) => IntKind
    case Float(_) => FloatKind
  }

  predicate NegativeZero(a: Scalar) { a.Float? && IsZero(a.x) && a.x.negative }

  // Of one kind, and not 0.0 beside -0.0.
  predicate SameKind(a: Scalar, b: Scalar) { KindOf(a) == KindOf(b) && (NegativeZero(a) <==> NegativeZero(b)) }

  lemma SameKindSame(a: Scalar, b: Scalar)
    requires IsScalar(a) && IsScalar(b) && Equal(a, b) && SameKind(a, b)
    ensures a == b
  {
    hide Rounds, Value, Better, IsBest;
  }

  lemma {:induction false} TimesGrows(x: real, k: nat)
    requires x >= 0.0
    ensures Times(x, 2, k) >= x
    decreases k
  {
    if k > 0 { TimesGrows(x * 2.0, k - 1); }
  }

  // The float n.0, for one digit n.
  function SmallFloat(n: nat): Scalar
    requires n < 10
  {
    Float(Finite(false, [('0' as int + n) as char], 1))
  }

  lemma SmallRounds(n: nat)
    requires n < 10
    ensures Rounds(n as real, n as real)
  {
    TimesGrows(0x3F_FFFF_FFFF_FFFF as real, 970);
    assert n as real == Scaled(n, 0);
    assert IsDouble(n as real);
  }

  // It is equal to the int.
  lemma SmallFloatEqual(n: nat)
    requires n < 10
    ensures IsScalar(SmallFloat(n)) && Equal(Int(n), SmallFloat(n)) && Equal(SmallFloat(n), Int(n))
  {
    hide Rounds;
    var x := SmallFloat(n).x;
    assert x.digits[..0] == "" && Number(x.digits) == n;
    assert Normal(x) && Value(x) == n as real;
    SmallRounds(n);
    forall y: Double | Normal(y) && Rounds(Value(y), n as real) ensures Better(x, y, n as real) {}
  }

  // ---------------------------------------------------------------- text

  function Zeros(k: nat): string { seq(k, _ => '0') }

  predicate Plain(point: int) { -4 < point <= 16 }

  function WholePart(digits: string, point: int): string {
    if point <= 0 then "0" else if point < |digits| then digits[..point] else digits + Zeros(point - |digits|)
  }

  function Fraction(digits: string, point: int): string {
    if point <= 0 then Zeros(-point) + digits else if point < |digits| then digits[point..] else "0"
  }

  function Mantissa(digits: string): string {
    if |digits| <= 1 then digits else [digits[0]] + "." + digits[1..]
  }

  function Exponent(k: int): string {
    var n := if k < 0 then -k else k;
    [if k < 0 then '-' else '+'] + if n < 10 then "0" + Decimal(n) else Decimal(n)
  }

  function Body(digits: string, point: int): string {
    if Plain(point) then WholePart(digits, point) + "." + Fraction(digits, point)
    else Mantissa(digits) + "e" + Exponent(point - 1)
  }

  predicate Signed(a: Scalar) {
    match a
    case Int(n) => n < 0
    case Float(x) => !x.NaN? && x.negative
    case _ => false
  }

  function Core(a: Scalar): string {
    match a
    case Null => "null"
    case Bool(b) => if b then "true" else "false"
    case Int(n) => Decimal(if n < 0 then -n else n)
    case Float(Finite(_, digits, point)) => Body(digits, point)
    case Float(Infinite(_)) => "Infinity"
    case Float(NaN) => "NaN"
  }

  // A scalar as json.dumps prints it.
  function Text(a: Scalar): string {
    (if Signed(a) then "-" else "") + Core(a)
  }

  predicate AtomChar(c: char) {
    '0' <= c <= '9' || 'a' <= c <= 'z' || 'A' <= c <= 'Z' || c == '+' || c == '-' || c == '.'
  }

  predicate AtomChars(s: string) { forall i :: 0 <= i < |s| ==> AtomChar(s[i]) }

  // ---------------------------------------------------------------- the text names the scalar

  lemma ReprNormal(a: Scalar)
    requires IsScalar(a) && a.Float? && a.x.Finite?
    ensures NormalDigits(a.x.digits, a.x.point)
  {
    hide Rounds, Value, Better, IsBest;
  }

  lemma NotLater(a: string, c: char, x: string, b: string, y: string)
    requires c !in b && a + [c] + x == b + [c] + y
    ensures |b| <= |a|
  {
    var s := a + [c] + x;
    assert s[|a|] == c;
    assert forall i :: 0 <= i < |b| ==> s[i] == b[i] && b[i] in b;
  }

  lemma SplitOne(a: string, c: char, x: string, b: string, y: string)
    requires c !in a && c !in b && a + [c] + x == b + [c] + y
    ensures a == b && x == y
  {
    NotLater(a, c, x, b, y);
    NotLater(b, c, y, a, x);
    var s := a + [c] + x;
    assert s[..|a|] == a && s[..|a|] == b && s[|a| + 1..] == x && s[|a| + 1..] == y;
  }

  lemma ZerosFirst(k: nat, d: string, l: nat, e: string)
    requires d != "" && e != "" && d[0] != '0' && e[0] != '0' && Zeros(k) + d == Zeros(l) + e
    ensures k == l && d == e
  {
    var s, t := Zeros(k) + d, Zeros(l) + e;
    assert s[k] == d[0] && t[l] == e[0];
    assert forall i :: 0 <= i < k ==> s[i] == '0';
    assert forall i :: 0 <= i < l ==> t[i] == '0';
    assert s[k..] == d && t[l..] == e;
  }

  lemma ZerosLast(d: string, k: nat, e: string, l: nat)
    requires d != "" && e != "" && d[|d| - 1] != '0' && e[|e| - 1] != '0' && d + Zeros(k) == e + Zeros(l)
    ensures d == e
  {
    var s, t := d + Zeros(k), e + Zeros(l);
    assert s[|d| - 1] == d[|d| - 1] && t[|e| - 1] == e[|e| - 1];
    assert forall i :: |d| <= i < |s| ==> s[i] == '0';
    assert forall i :: |e| <= i < |t| ==> t[i] == '0';
    assert s[..|d|] == d && t[..|e|] == e;
  }

  // How the two parts of a plain decimal look.
  lemma PlainParts(d: string, p: int)
    requires NormalDigits(d, p)
    ensures var w, f := WholePart(d, p), Fraction(d, p);
      && w != "" && f != "" && AllDigits(w) && AllDigits(f)
      && (w[0] == '0' <==> p <= 0 || d == "0")
      && (f[|f| - 1] == '0' <==> p >= |d|)
      && (w[0] == '0' ==> w == "0")
      && (p > 0 ==> |w| == p)
  {}

  lemma PlainOne(d: string, p: int, e: string, q: int)
    requires NormalDigits(d, p) && NormalDigits(e, q)
    requires WholePart(d, p) == WholePart(e, q) && Fraction(d, p) == Fraction(e, q)
    ensures d == e && p == q
  {
    PlainParts(d, p);
    PlainParts(e, q);
    if p <= 0 {
      if q <= 0 { ZerosFirst(-p, d, -q, e); }
    } else if p < |d| {
      assert d == d[..p] + d[p..];
      assert e == e[..q] + e[q..];
    } else if d != "0" {
      ZerosLast(d, p - |d|, e, q - |e|);
    }
  }

  lemma PlainText(d: string, p: int)
    requires NormalDigits(d, p) && Plain(p)
    ensures '.' in Body(d, p) && 'e' !in Body(d, p) && '.' !in WholePart(d, p)
    ensures AtomChars(Body(d, p)) && '0' <= Body(d, p)[0] <= '9'
  {
    hide WholePart, Fraction;
    PlainParts(d, p);
    var s := Body(d, p);
    assert s[|WholePart(d, p)|] == '.';
    assert s[0] == WholePart(d, p)[0];
  }

  lemma ExponentText(k: int)
    ensures AtomChars(Exponent(k))
  {
    DecimalChars(if k < 0 then -k else k);
  }

  lemma ExponentOne(k: int, l: int)
    requires Exponent(k) == Exponent(l)
    ensures k == l
  {
    var m, n := if k < 0 then -k else k, if l < 0 then -l else l;
    var s, t := Exponent(k), Exponent(l);
    assert s[0] == t[0];
    DecimalChars(m);
    DecimalChars(n);
    assert s[1..] == if m < 10 then "0" + Decimal(m) else Decimal(m);
    assert t[1..] == if n < 10 then "0" + Decimal(n) else Decimal(n);
    assert s[1] == (if m < 10 then '0' else Decimal(m)[0]) && t[1] == (if n < 10 then '0' else Decimal(n)[0]);
    if m < 10 {
      assert s[2..] == Decimal(m) && t[2..] == Decimal(n);
    }
    DecimalOne(m, n);
  }

  lemma MantissaText(d: string)
    requires d != "" && AllDigits(d)
    ensures AtomChars(Mantissa(d)) && 'e' !in Mantissa(d) && Mantissa(d) != "" && Mantissa(d)[0] == d[0]
  {}

  lemma MantissaOne(d: string, e: string)
    requires d != "" && e != "" && Mantissa(d) == Mantissa(e)
    ensures d == e
  {
    var s, t := Mantissa(d), Mantissa(e);
    if |d| > 1 && |e| > 1 {
      assert s[0] == d[0] && t[0] == e[0] && s[2..] == d[1..] && t[2..] == e[1..];
      assert d == [d[0]] + d[1..] && e == [e[0]] + e[1..];
    }
  }

  lemma PowerText(d: string, p: int)
    requires NormalDigits(d, p) && !Plain(p)
    ensures 'e' in Body(d, p) && AtomChars(Body(d, p)) && '0' <= Body(d, p)[0] <= '9'
  {
    hide Exponent, Mantissa;
    MantissaText(d);
    ExponentText(p - 1);
    var s := Body(d, p);
    assert s[|Mantissa(d)|] == 'e';
    assert s[0] == Mantissa(d)[0];
  }

  lemma BodyText(d: string, p: int)
    requires NormalDigits(d, p)
    ensures var s := Body(d, p);
      s != "" && AtomChars(s) && '0' <= s[0] <= '9' && ('.' in s || 'e' in s) && ('e' in s <==> !Plain(p))
  {
    hide Body;
    if Plain(p) { PlainText(d, p); } else { PowerText(d, p); }
  }

  lemma BodyOne(d: string, p: int, e: string, q: int)
    requires NormalDigits(d, p) && NormalDigits(e, q) && Body(d, p) == Body(e, q)
    ensures d == e && p == q
  {
    hide WholePart, Fraction, Mantissa, Exponent;
    BodyText(d, p);
    BodyText(e, q);
    if Plain(p) {
      PlainText(d, p);
      PlainText(e, q);
      SplitOne(WholePart(d, p), '.', Fraction(d, p), WholePart(e, q), Fraction(e, q));
      PlainOne(d, p, e, q);
    } else {
      MantissaText(d);
      MantissaText(e);
      SplitOne(Mantissa(d), 'e', Exponent(p - 1), Mantissa(e), Exponent(q - 1));
      MantissaOne(d, e);
      ExponentOne(p - 1, q - 1);
    }
  }

  // The first character of a core shows the kind, up to int and finite float.
  predicate CoreShape(a: Scalar, s: string) {
    && s != "" && AtomChars(s) && s[0] != '-'
    && match a
       case Null => s[0] == 'n'
       case Bool(b) => s[0] == if b then 't' else 'f'
       case Int(n) => AllDigits(s)
       case Float(Finite(_, _, _)) => '0' <= s[0] <= '9' && ('.' in s || 'e' in s)
       case Float(Infinite(_)) => s[0] == 'I'
       case Float(NaN) => s[0] == 'N'
  }

  lemma CoreText(a: Scalar)
    requires IsScalar(a)
    ensures (a.Float? && a.x.Finite? ==> NormalDigits(a.x.digits, a.x.point)) && CoreShape(a, Core(a))
  {
    hide Body, NormalDigits, IsScalar;
    match a
    case Int(n) => DecimalChars(if n < 0 then -n else n);
    case Float(Finite(_, digits, point)) =>
      ReprNormal(a);
      BodyText(digits, point);
    case _ =>
  }

  lemma CoreOne(a: Scalar, b: Scalar)
    requires IsScalar(a) && IsScalar(b) && Signed(a) == Signed(b) && Core(a) == Core(b)
    ensures a == b
  {
    hide Body, NormalDigits, IsScalar, Decimal;
    CoreText(a);
    CoreText(b);
    if a.Int? && b.Int? {
      DecimalOne(if a.n < 0 then -a.n else a.n, if b.n < 0 then -b.n else b.n);
    } else if a.Float? && b.Float? && a.x.Finite? && b.x.Finite? {
      BodyOne(a.x.digits, a.x.point, b.x.digits, b.x.point);
    }
  }

  lemma TextShape(a: Scalar)
    requires IsScalar(a)
    ensures Text(a) != "" && AtomChars(Text(a))
    ensures Text(a)[0] == '-' <==> Signed(a)
  {
    hide Core, IsScalar;
    CoreText(a);
  }

  // Two scalars with the same text are the same.
  lemma TextOne(a: Scalar, b: Scalar)
    requires IsScalar(a) && IsScalar(b) && Text(a) == Text(b)
    ensures a == b
  {
    hide Core, IsScalar;
    TextShape(a);
    TextShape(b);
    if Signed(a) {
      assert Text(a)[1..] == Core(a) && Text(b)[1..] == Core(b);
    } else {
      assert Text(a) == Core(a) && Text(b) == Core(b);
    }
    CoreOne(a, b);
  }

  // ---------------------------------------------------------------- the text read as a number

  // s is a whole part w, an optional fraction f and an optional exponent k, and no sign
  // (section 6 of RFC 8259), and stands for v.
  ghost predicate Reads(s: string, w: string, f: string, k: int, v: real) {
    && w != "" && AllDigits(w) && AllDigits(f) && AllDigits(w + f)
    && (exists e :: ReadsPower(e, k) && s == w + (if f == "" then "" else "." + f) + e)
    && v == Times(Number(w + f) as real, 10, k - |f|)
  }

  ghost predicate ReadsPower(e: string, k: int) {
    || (e == "" && k == 0)
    || (|e| >= 3 && e[0] == 'e' && AllDigits(e[2..]) && (e[1] == '+' || e[1] == '-') &&
        k == if e[1] == '-' then -(Number(e[2..]) as int) else Number(e[2..]) as int)
  }

  lemma NumberSnoc(s: string, c: char)
    requires AllDigits(s) && '0' <= c <= '9'
    ensures AllDigits(s + [c]) && Number(s + [c]) == 10 * Number(s) + (c - '0') as nat
  {
    assert (s + [c])[..|s|] == s;
  }

  lemma {:induction false} DecimalReads(n: nat)
    ensures AllDigits(Decimal(n)) && Number(Decimal(n)) == n
  {
    if n >= 10 {
      DecimalReads(n / 10);
      NumberSnoc(Decimal(n / 10), Decimal(n % 10)[0]);
    } else {
      assert Decimal(n)[..0] == "";
    }
  }

  lemma ZerosSnoc(k: nat)
    requires k > 0
    ensures Zeros(k) == Zeros(k - 1) + ['0']
  {}

  lemma {:induction false} ZerosNumber(k: nat)
    ensures AllDigits(Zeros(k)) && Number(Zeros(k)) == 0
  {
    if k > 0 {
      ZerosNumber(k - 1);
      ZerosSnoc(k);
      NumberSnoc(Zeros(k - 1), '0');
    }
  }

  // Zeros in front change nothing, zeros behind move the point.
  lemma {:induction false} ZerosBefore(k: nat, d: string)
    requires AllDigits(d)
    ensures AllDigits(Zeros(k) + d) && Number(Zeros(k) + d) == Number(d)
    decreases |d|
  {
    hide Zeros;
    if d == "" {
      ZerosNumber(k);
      assert Zeros(k) + d == Zeros(k);
    } else {
      var n := |d| - 1;
      ZerosBefore(k, d[..n]);
      NumberSnoc(Zeros(k) + d[..n], d[n]);
      Regroup(Zeros(k), d[..n], [d[n]]);
      assert d == d[..n] + [d[n]];
    }
  }

  lemma TimesShift(x: real, k: int)
    ensures Times(x * 10.0, 10, k - 1) == Times(x, 10, k)
  {
    if k <= 0 { assert x * 10.0 / 10.0 == x; }
  }

  lemma NoZeros(d: string)
    ensures d + Zeros(0) == d
  {}

  lemma {:induction false} ZerosBehind(d: string, k: nat, p: int)
    requires AllDigits(d)
    ensures AllDigits(d + Zeros(k)) && Times(Number(d + Zeros(k)) as real, 10, p - k) == Times(Number(d) as real, 10, p)
    decreases k
  {
    hide Times, Number, Zeros;
    if k == 0 {
      assert d + Zeros(0) == d by { NoZeros(d); }
    } else {
      ZerosBehind(d, k - 1, p);
      NumberSnoc(d + Zeros(k - 1), '0');
      ZerosSnoc(k);
      Regroup(d, Zeros(k - 1), ['0']);
      TimesShift(Number(d + Zeros(k - 1)) as real, p - (k - 1));
    }
  }

  lemma PlainReads(d: string, p: int)
    requires NormalDigits(d, p)
    ensures var w, f := WholePart(d, p), Fraction(d, p);
      AllDigits(w) && AllDigits(f) && AllDigits(w + f) && Times(Number(w + f) as real, 10, -|f|) == Times(Number(d) as real, 10, p - |d|)
  {
    hide Times, Number;
    PlainParts(d, p);
    var w, f := WholePart(d, p), Fraction(d, p);
    if p <= 0 {
      ZerosBefore(1 - p, d);
      assert w + f == Zeros(1 - p) + d;
    } else if p < |d| {
      assert w + f == d;
    } else {
      ZerosBehind(d, p - |d| + 1, p - |d|);
      assert w + f == d + Zeros(p - |d| + 1);
    }
  }

  lemma PowerReads(k: int)
    ensures ReadsPower("e" + Exponent(k), k)
  {
    hide Decimal, Zeros;
    var n := if k < 0 then -k else k;
    var t := if n < 10 then "0" + Decimal(n) else Decimal(n);
    TwoDigits(n);
    DropTwo('e', if k < 0 then '-' else '+', t);
  }

  lemma DropTwo(c: char, sign: char, t: string)
    ensures var s := [c] + ([sign] + t); |s| == |t| + 2 && s[0] == c && s[1] == sign && s[2..] == t
  {}

  lemma TwoDigits(n: nat)
    ensures var t := if n < 10 then "0" + Decimal(n) else Decimal(n); |t| >= 2 && AllDigits(t) && Number(t) == n
  {
    hide Decimal;
    DecimalReads(n);
    DecimalChars(n);
    ZerosBefore(1, Decimal(n));
    assert Zeros(1) == "0";
  }

  lemma Joined(s: string, w: string, f: string, e: string, k: int, v: real)
    requires w != "" && AllDigits(w) && AllDigits(f) && AllDigits(w + f)
    requires ReadsPower(e, k) && s == w + (if f == "" then "" else "." + f) + e
    requires v == Times(Number(w + f) as real, 10, k - |f|)
    ensures Reads(s, w, f, k, v)
  {
    hide Times, Number, ReadsPower, AllDigits;
  }

  lemma PlainLayout(d: string, p: int)
    requires Plain(p) && Fraction(d, p) != ""
    ensures var f := Fraction(d, p); Body(d, p) == WholePart(d, p) + (if f == "" then "" else "." + f) + ""
  {
    hide WholePart, Fraction;
  }

  lemma PowerLayout(d: string, p: int)
    requires !Plain(p) && d != ""
    ensures Body(d, p) == d[..1] + (if d[1..] == "" then "" else "." + d[1..]) + ("e" + Exponent(p - 1))
  {
    hide Exponent, Mantissa;
    MantissaLayout(d);
    Regroup(Mantissa(d), "e", Exponent(p - 1));
  }

  lemma MantissaLayout(d: string)
    requires d != ""
    ensures Mantissa(d) == d[..1] + if d[1..] == "" then "" else "." + d[1..]
  {
    if |d| == 1 {
      assert d[..1] == d && d + "" == d;
    } else {
      Regroup([d[0]], ".", d[1..]);
      assert d[..1] == [d[0]];
    }
  }

  // What is printed of a float without its sign reads as its value.
  lemma BodyReads(d: string, p: int) returns (w: string, f: string, k: int)
    requires NormalDigits(d, p)
    ensures Reads(Body(d, p), w, f, k, Times(Number(d) as real, 10, p - |d|))
  {
    hide Times, Number, Exponent, WholePart, Fraction, ReadsPower, Reads, Body, Mantissa;
    var v := Times(Number(d) as real, 10, p - |d|);
    if Plain(p) {
      w, f, k := WholePart(d, p), Fraction(d, p), 0;
      PlainParts(d, p);
      PlainReads(d, p);
      PlainLayout(d, p);
      NoPower();
      Joined(Body(d, p), w, f, "", k, v);
    } else {
      w, f, k := d[..1], d[1..], p - 1;
      PowerReads(k);
      PowerLayout(d, p);
      assert w + f == d;
      Joined(Body(d, p), w, f, "e" + Exponent(k), k, v);
    }
  }

  lemma NoPower()
    ensures ReadsPower("", 0)
  {}

  // The text of an int or a finite float is its sign and a numeral that reads as it; a float
  // is written with an exponent exactly below 0.0001 and from ten to the sixteenth on.
  lemma TextReads(a: Scalar) returns (t: string, w: string, f: string, k: int)
    requires IsScalar(a) && (a.Int? || (a.Float? && a.x.Finite?))
    ensures Text(a) == (if Signed(a) then "-" else "") + t
    ensures a.Int? ==> Reads(t, w, f, k, Abs(a.n as real)) && t == w
    ensures a.Float? ==> Normal(a.x) && Reads(t, w, f, k, if a.x.negative then -Value(a.x) else Value(a.x))
    ensures a.Float? ==> ('e' in t <==> a.x.point <= -4 || a.x.point >= 17) && ('e' !in t ==> '.' in t)
  {
    hide Body, NormalDigits, IsScalar, Decimal, Times, Number, Reads;
    t := Core(a);
    if a.Int? {
      var n := if a.n < 0 then -a.n else a.n;
      DecimalReads(n);
      DecimalChars(n);
      w, f, k := t, "", 0;
      WholeReads(t, n);
    } else {
      ReprNormal(a);
      w, f, k := BodyReads(a.x.digits, a.x.point);
      BodyText(a.x.digits, a.x.point);
    }
  }

  lemma WholeReads(t: string, n: nat)
    requires t != "" && AllDigits(t) && Number(t) == n
    ensures Reads(t, t, "", 0, n as real)
  {
    hide Number;
    NoPower();
    assert t + "" == t && t + "" + "" == t;
  }

  // Equal scalars are printed alike exactly when they are of one kind, zeros signed alike.
  lemma EqualTextIff(a: Scalar, b: Scalar)
    requires IsScalar(a) && IsScalar(b) && Equal(a, b)
    ensures Text(a) == Text(b) <==> SameKind(a, b)
  {
    hide Core, IsScalar, Equal;
    if Text(a) == Text(b) { TextOne(a, b); }
    if SameKind(a, b) { SameKindSame(a, b); }
  }
}
