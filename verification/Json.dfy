/**
 JSON values as the agent holds them, and the text json.dumps(ensure_ascii=False) gives
 them: an object keeps the order its keys came in, and equality ignores that order.
 */
module Json {
  import opened Strings
  import opened Numbers

  datatype Json = Atom(a: Scalar) | Text(s: string) | Array(items: Items) | Object(members: Members)

  datatype Items = NoItem | Item(head: Json, tail: Items)

  datatype Members = NoMember | Member(key: string, value: Json, rest: Members)

  predicate Has(m: Members, key: string) {
    m.Member? && (m.key == key || Has(m.rest, key))
  }

  function Get(m: Members, key: string): Json
    requires Has(m, key)
  {
    if m.key == key then m.value else Get(m.rest, key)
  }

  function Count(m: Members): nat {
    if m.NoMember? then 0 else 1 + Count(m.rest)
  }

  // Atoms are scalars Python can hold, and no object holds a key twice.
  ghost predicate IsValue(v: Json) {
    match v
    case Atom(a) => IsScalar(a)
    case Text(s) => true
    case Array(items) => AreItems(items)
    case Object(members) => AreMembers(members)
  }

  ghost predicate AreItems(items: Items) {
    items.NoItem? || (IsValue(items.head) && AreItems(items.tail))
  }

  ghost predicate AreMembers(m: Members) {
    m.NoMember? || (!Has(m.rest, m.key) && IsValue(m.value) && AreMembers(m.rest))
  }

  // ---------------------------------------------------------------- equality

  // Python's equality: the order of an object's keys does not matter, nor does 1 differ
  // from 1.0 and True.
  ghost predicate Same(v: Json, w: Json)
    decreases v
  {
    match v
    case Atom(a) => w.Atom? && Equal(a, w.a)
    case Array(items) => w.Array? && SameItems(items, w.items)
    case Object(m) => w.Object? && Count(m) == Count(w.members) && Includes(w.members, m)
    case _ => v == w
  }

  ghost predicate SameItems(a: Items, b: Items)
    decreases a
  {
    if a.NoItem? then b.NoItem? else b.Item? && Same(a.head, b.head) && SameItems(a.tail, b.tail)
  }

  // Every member of m is one of n.
  ghost predicate Includes(n: Members, m: Members)
    decreases m
  {
    m.NoMember? || (Has(n, m.key) && Same(m.value, Get(n, m.key)) && Includes(n, m.rest))
  }

  // Both list the same keys in the same order, at every depth.
  predicate SameOrder(v: Json, w: Json)
    decreases v
  {
    match v
    case Array(items) => w.Array? && SameItemOrder(items, w.items)
    case Object(m) => w.Object? && SameMemberOrder(m, w.members)
    case _ => !w.Array? && !w.Object?
  }

  predicate SameItemOrder(a: Items, b: Items)
    decreases a
  {
    if a.NoItem? then b.NoItem? else b.Item? && SameOrder(a.head, b.head) && SameItemOrder(a.tail, b.tail)
  }

  predicate SameMemberOrder(m: Members, n: Members)
    decreases m
  {
    if m.NoMember? then n.NoMember?
    else n.Member? && m.key == n.key && SameOrder(m.value, n.value) && SameMemberOrder(m.rest, n.rest)
  }

  // Where both have a number, a boolean or null, it is of one kind, zeros signed alike.
  predicate SameKinds(v: Json, w: Json)
    decreases v
  {
    match v
    case Atom(a) => w.Atom? ==> SameKind(a, w.a)
    case Array(items) => w.Array? ==> SameItemKinds(items, w.items)
    case Object(m) => w.Object? ==> SameMemberKinds(m, w.members)
    case _ => true
  }

  predicate SameItemKinds(a: Items, b: Items)
    decreases a
  {
    a.Item? && b.Item? ==> SameKinds(a.head, b.head) && SameItemKinds(a.tail, b.tail)
  }

  predicate SameMemberKinds(m: Members, n: Members)
    decreases m
  {
    m.Member? ==> (Has(n, m.key) ==> SameKinds(m.value, Get(n, m.key))) && SameMemberKinds(m.rest, n)
  }

  // Every key holds its numbers and booleans in the one kind that kinds gives, as a tool's
  // schema does; null may stand in for any, and no float is -0.0.
  predicate TypedBy(v: Json, key: string, kinds: string -> Kind) {
    match v
    case Atom(a) => a.Null? || (KindOf(a) == kinds(key) && !NegativeZero(a))
    case Array(items) => ItemsTypedBy(items, key, kinds)
    case Object(m) => MembersTypedBy(m, kinds)
    case _ => true
  }

  predicate ItemsTypedBy(items: Items, key: string, kinds: string -> Kind) {
    items.NoItem? || (TypedBy(items.head, key, kinds) && ItemsTypedBy(items.tail, key, kinds))
  }

  predicate MembersTypedBy(m: Members, kinds: string -> Kind) {
    m.NoMember? || (TypedBy(m.value, m.key, kinds) && MembersTypedBy(m.rest, kinds))
  }

  // Every object lists its keys in the one order that rank gives.
  predicate OrderedBy(v: Json, rank: string -> int) {
    match v
    case Array(items) => ItemsOrderedBy(items, rank)
    case Object(m) => MembersOrderedBy(m, rank)
    case _ => true
  }

  predicate ItemsOrderedBy(items: Items, rank: string -> int) {
    items.NoItem? || (OrderedBy(items.head, rank) && ItemsOrderedBy(items.tail, rank))
  }

  predicate MembersOrderedBy(m: Members, rank: string -> int) {
    m.NoMember? ||
    ((m.rest.Member? ==> rank(m.key) < rank(m.rest.key)) && OrderedBy(m.value, rank) && MembersOrderedBy(m.rest, rank))
  }

  // ---------------------------------------------------------------- order and equality

  lemma {:induction false} IncludesTail(n: Members, m: Members)
    requires n.Member? && Includes(n, m) && !Has(m, n.key)
    ensures Includes(n.rest, m)
    decreases m
  {
    if m.Member? { IncludesTail(n, m.rest); }
  }

  lemma {:induction false} KindsTail(m: Members, n: Members)
    requires n.Member? && SameMemberKinds(m, n) && !Has(m, n.key)
    ensures SameMemberKinds(m, n.rest)
    decreases m
  {
    if m.Member? { KindsTail(m.rest, n); }
  }

  lemma {:induction false} KindsMore(m: Members, n: Members)
    requires n.Member? && SameMemberKinds(m, n.rest) && !Has(m, n.key)
    ensures SameMemberKinds(m, n)
    decreases m
  {
    if m.Member? { KindsMore(m.rest, n); }
  }

  // Equal values that also agree on kinds and on the order of their keys are the same value.
  lemma {:induction false} SameInOrder(v: Json, w: Json)
    requires IsValue(v) && IsValue(w) && Same(v, w) && SameKinds(v, w) && SameOrder(v, w)
    ensures v == w
    decreases v
  {
    hide Equal, IsScalar, SameKind;
    match v
    case Atom(a) => SameKindSame(a, w.a);
    case Array(items) => SameItemsInOrder(items, w.items);
    case Object(m) => SameMembersInOrder(m, w.members);
    case _ =>
  }

  lemma {:induction false} SameItemsInOrder(a: Items, b: Items)
    requires AreItems(a) && AreItems(b) && SameItems(a, b) && SameItemKinds(a, b) && SameItemOrder(a, b)
    ensures a == b
    decreases a
  {
    if a.Item? {
      SameInOrder(a.head, b.head);
      SameItemsInOrder(a.tail, b.tail);
    }
  }

  lemma {:induction false} SameMembersInOrder(m: Members, n: Members)
    requires AreMembers(m) && AreMembers(n) && Includes(n, m) && SameMemberKinds(m, n) && SameMemberOrder(m, n)
    ensures m == n
    decreases m
  {
    if m.Member? {
      SameInOrder(m.value, n.value);
      IncludesTail(n, m.rest);
      KindsTail(m.rest, n);
      SameMembersInOrder(m.rest, n.rest);
    }
  }

  lemma {:induction false} IncludesMore(n: Members, m: Members)
    requires n.Member? && Includes(n.rest, m) && !Has(m, n.key)
    ensures Includes(n, m)
    decreases m
  {
    if m.Member? { IncludesMore(n, m.rest); }
  }

  lemma {:induction false} SameSelf(v: Json)
    requires IsValue(v)
    ensures Same(v, v) && SameKinds(v, v) && SameOrder(v, v)
  {
    match v
    case Array(items) => SameItemsSelf(items);
    case Object(m) => IncludesSelf(m);
    case _ =>
  }

  lemma {:induction false} SameItemsSelf(a: Items)
    requires AreItems(a)
    ensures SameItems(a, a) && SameItemKinds(a, a) && SameItemOrder(a, a)
  {
    if a.Item? {
      SameSelf(a.head);
      SameItemsSelf(a.tail);
    }
  }

  lemma {:induction false} IncludesSelf(m: Members)
    requires AreMembers(m)
    ensures Includes(m, m) && SameMemberKinds(m, m) && SameMemberOrder(m, m)
  {
    if m.Member? {
      SameSelf(m.value);
      IncludesSelf(m.rest);
      IncludesMore(m, m.rest);
      KindsMore(m.rest, m);
    }
  }

  // Two members in either order: equal objects that differ in the order of their keys.
  lemma Swapped(k: string, v: Json, l: string, w: Json)
    requires k != l && IsValue(v) && IsValue(w)
    ensures var x := Object(Member(k, v, Member(l, w, NoMember)));
      var y := Object(Member(l, w, Member(k, v, NoMember)));
      IsValue(x) && IsValue(y) && Same(x, y) && !SameOrder(x, y)
  {
    hide IsValue, Same, SameOrder;
    SameSelf(v);
    SameSelf(w);
    var last_x, last_y := Member(l, w, NoMember), Member(k, v, NoMember);
    var x, y := Member(k, v, last_x), Member(l, w, last_y);
    OneMember(k, v, l);
    OneMember(l, w, k);
    assert Has(y, k) && Get(y, k) == v && Has(y, l) && Get(y, l) == w;
    assert Includes(y, last_x);
    SwappedObjects(x, y);
  }

  lemma OneMember(k: string, v: Json, other: string)
    requires k != other && IsValue(v)
    ensures var m := Member(k, v, NoMember);
      AreMembers(m) && Has(m, k) && Get(m, k) == v && !Has(m, other) && Count(m) == 1 && Includes(m, NoMember)
  {
    hide IsValue;
  }

  // One member holding equal scalars of two kinds: equal objects of two kinds.
  lemma TwoKinds(key: string, x: Scalar, y: Scalar)
    requires IsScalar(x) && IsScalar(y) && Equal(x, y) && !SameKind(x, y)
    ensures var v, w := Object(Member(key, Atom(x), NoMember)), Object(Member(key, Atom(y), NoMember));
      IsValue(v) && IsValue(w) && Same(v, w) && !SameKinds(v, w)
  {
    hide IsScalar, Equal, SameKind;
    var m, n := Member(key, Atom(x), NoMember), Member(key, Atom(y), NoMember);
    assert IsValue(Atom(x)) && IsValue(Atom(y)) && Same(Atom(x), Atom(y)) && !SameKinds(Atom(x), Atom(y));
    assert !Has(NoMember, key) && AreMembers(NoMember) && Includes(n, NoMember);
    assert AreMembers(m) && AreMembers(n) && Has(n, key) && Get(n, key) == Atom(y);
    assert Includes(n, m) && !SameMemberKinds(m, n);
    assert Count(m) == 1 + Count(NoMember) == Count(n);
  }

  lemma SwappedObjects(x: Members, y: Members)
    requires AreMembers(x) && AreMembers(y) && Count(x) == Count(y) && Includes(y, x) && !SameMemberOrder(x, y)
    ensures IsValue(Object(x)) && IsValue(Object(y)) && Same(Object(x), Object(y)) && !SameOrder(Object(x), Object(y))
  {}

  // ---------------------------------------------------------------- one fixed order

  lemma {:induction false} FirstIsLeast(m: Members, rank: string -> int, key: string)
    requires m.Member? && MembersOrderedBy(m, rank) && Has(m.rest, key)
    ensures rank(m.key) < rank(key)
    decreases m
  {
    if m.rest.key != key { FirstIsLeast(m.rest, rank, key); }
  }

  lemma {:induction false} FewerMembers(n: Members, m: Members, rank: string -> int)
    requires MembersOrderedBy(m, rank) && MembersOrderedBy(n, rank) && Includes(n, m)
    ensures Count(m) <= Count(n)
    decreases n
  {
    if m.Member? {
      if m.key == n.key {
        NotFirst(m, rank);
        IncludesTail(n, m.rest);
        FewerMembers(n.rest, m.rest, rank);
      } else {
        FirstIsLeast(n, rank, m.key);
        NoneBefore(m, rank, n.key);
        IncludesTail(n, m);
        FewerMembers(n.rest, m, rank);
      }
    }
  }

  lemma NotFirst(m: Members, rank: string -> int)
    requires m.Member? && MembersOrderedBy(m, rank)
    ensures !Has(m.rest, m.key)
  {
    if Has(m.rest, m.key) { FirstIsLeast(m, rank, m.key); }
  }

  lemma NoneBefore(m: Members, rank: string -> int, key: string)
    requires m.Member? && MembersOrderedBy(m, rank) && rank(key) < rank(m.key)
    ensures !Has(m, key)
  {
    if Has(m, key) && m.key != key { FirstIsLeast(m, rank, key); }
  }

  // Equal values whose keys all follow one order agree on it.
  lemma {:induction false} OneOrder(v: Json, w: Json, rank: string -> int)
    requires Same(v, w) && OrderedBy(v, rank) && OrderedBy(w, rank)
    ensures SameOrder(v, w)
    decreases v
  {
    match v
    case Array(items) => OneItemOrder(items, w.items, rank);
    case Object(m) => OneMemberOrder(m, w.members, rank);
    case _ =>
  }

  lemma {:induction false} OneItemOrder(a: Items, b: Items, rank: string -> int)
    requires SameItems(a, b) && ItemsOrderedBy(a, rank) && ItemsOrderedBy(b, rank)
    ensures SameItemOrder(a, b)
    decreases a
  {
    if a.Item? {
      OneOrder(a.head, b.head, rank);
      OneItemOrder(a.tail, b.tail, rank);
    }
  }

  lemma {:induction false} OneMemberOrder(m: Members, n: Members, rank: string -> int)
    requires Count(m) == Count(n) && Includes(n, m) && MembersOrderedBy(m, rank) && MembersOrderedBy(n, rank)
    ensures SameMemberOrder(m, n)
    decreases m
  {
    if m.Member? {
      SameFirst(m, n, rank);
      NotFirst(m, rank);
      OneOrder(m.value, n.value, rank);
      IncludesTail(n, m.rest);
      OneMemberOrder(m.rest, n.rest, rank);
    }
  }

  lemma SameFirst(m: Members, n: Members, rank: string -> int)
    requires m.Member? && Count(m) == Count(n) && Includes(n, m) && MembersOrderedBy(m, rank) && MembersOrderedBy(n, rank)
    ensures n.Member? && m.key == n.key
  {
    if m.key != n.key {
      FirstIsLeast(n, rank, m.key);
      NoneBefore(m, rank, n.key);
      IncludesTail(n, m);
      FewerMembers(n.rest, m, rank);
    }
  }

  // Equal values typed by one schema agree on kinds.
  lemma {:induction false} OneTyping(v: Json, w: Json, key: string, kinds: string -> Kind)
    requires Same(v, w) && TypedBy(v, key, kinds) && TypedBy(w, key, kinds)
    ensures SameKinds(v, w)
    decreases v
  {
    hide Stands;
    match v
    case Array(items) => OneItemTyping(items, w.items, key, kinds);
    case Object(m) => OneMemberTyping(m, w.members, kinds);
    case _ =>
  }

  lemma {:induction false} OneItemTyping(a: Items, b: Items, key: string, kinds: string -> Kind)
    requires SameItems(a, b) && ItemsTypedBy(a, key, kinds) && ItemsTypedBy(b, key, kinds)
    ensures SameItemKinds(a, b)
    decreases a
  {
    if a.Item? {
      OneTyping(a.head, b.head, key, kinds);
      OneItemTyping(a.tail, b.tail, key, kinds);
    }
  }

  lemma {:induction false} OneMemberTyping(m: Members, n: Members, kinds: string -> Kind)
    requires Includes(n, m) && MembersTypedBy(m, kinds) && MembersTypedBy(n, kinds)
    ensures SameMemberKinds(m, n)
    decreases m
  {
    if m.Member? {
      TypedAt(n, m.key, kinds);
      OneTyping(m.value, Get(n, m.key), m.key, kinds);
      OneMemberTyping(m.rest, n, kinds);
    }
  }

  lemma {:induction false} TypedAt(n: Members, key: string, kinds: string -> Kind)
    requires Has(n, key) && MembersTypedBy(n, kinds)
    ensures TypedBy(Get(n, key), key, kinds)
    decreases n
  {
    if n.key != key { TypedAt(n.rest, key, kinds); }
  }

  // ---------------------------------------------------------------- printing

  function EscapeChar(c: char): (e: string)
    ensures e != "" && e[0] != '"'
  {
    if c == '"' then "\\\""
    else if c == '\\' then "\\\\"
    else if c == '\n' then "\\n"
    else if c == '\r' then "\\r"
    else if c == '\t' then "\\t"
    else if c == '\U{0008}' then "\\b"
    else if c == '\U{000C}' then "\\f"
    else if c < ' ' then "\\u00" + [HexDigit(c as nat / 16), HexDigit(c as nat % 16)]
    else [c]
  }

  // The rest of a quoted string: s escaped, the closing quote, and what follows.
  function Escape(s: string, then_: string): (r: string)
    ensures r != ""
  {
    if s == "" then ['"'] + then_ else EscapeChar(s[0]) + Escape(s[1..], then_)
  }

  // The text of v, followed by then_.
  function Print(v: Json, then_: string): string
    decreases v
  {
    match v
    case Atom(a) => Numbers.Text(a) + then_
    case Text(s) => ['"'] + Escape(s, then_)
    case Array(items) =>
      ['['] + if items.NoItem? then [']'] + then_ else Print(items.head, PrintTail(items.tail, then_))
    case Object(m) =>
      ['{'] + if m.NoMember? then ['}'] + then_ else PrintMember(m, then_)
  }

  function PrintTail(items: Items, then_: string): string
    decreases items
  {
    if items.NoItem? then [']'] + then_
    else [','] + ([' '] + Print(items.head, PrintTail(items.tail, then_)))
  }

  function PrintMember(m: Members, then_: string): string
    requires m.Member?
    decreases m, 0
  {
    ['"'] + Escape(m.key, [':'] + ([' '] + Print(m.value, PrintRest(m.rest, then_))))
  }

  function PrintRest(m: Members, then_: string): string
    decreases m, 1
  {
    if m.NoMember? then ['}'] + then_ else [','] + ([' '] + PrintMember(m, then_))
  }

  // ---------------------------------------------------------------- printing loses nothing

  // What may follow a value: nothing an atom could go on with.
  predicate Stops(x: string) { x == "" || !AtomChar(x[0]) }

  lemma Chop(c: char, x: string, d: char, y: string)
    requires [c] + x == [d] + y
    ensures c == d && x == y
  {
    assert ([c] + x)[0] == c && ([d] + y)[0] == d;
    assert ([c] + x)[1..] == x && ([d] + y)[1..] == y;
  }

  lemma EscapeInjective(c: char, d: char)
    requires EscapeChar(c) == EscapeChar(d)
    ensures c == d
  {
    var e, f := EscapeChar(c), EscapeChar(d);
    if |e| == 6 {
      assert e[4] == HexDigit(c as nat / 16) && e[5] == HexDigit(c as nat % 16);
      assert f[4] == HexDigit(d as nat / 16) && f[5] == HexDigit(d as nat % 16);
      HexInjective(c as nat / 16, d as nat / 16);
      HexInjective(c as nat % 16, d as nat % 16);
    } else if |e| == 2 {
      assert e[1] == f[1];
    } else {
      assert e[0] == f[0];
    }
  }

  lemma HexInjective(a: nat, b: nat)
    requires a < 16 && b < 16
    ensures HexDigit(a) == HexDigit(b) ==> a == b
  {}

  // How long an escape is shows in its first two characters.
  lemma EscapeShape(c: char)
    ensures var e := EscapeChar(c);
      && (|e| == 1 <==> e[0] != '\\')
      && (|e| == 1 || |e| == 2 || |e| == 6)
      && (|e| >= 2 ==> (|e| == 6 <==> e[1] == 'u'))
  {}

  lemma EscapeOne(c: char, x: string, d: char, y: string)
    requires EscapeChar(c) + x == EscapeChar(d) + y
    ensures c == d && x == y
  {
    hide EscapeChar;
    var e, f := EscapeChar(c), EscapeChar(d);
    EscapeShape(c);
    EscapeShape(d);
    var whole := e + x;
    assert whole[0] == e[0] && whole[0] == f[0];
    if |e| >= 2 {
      assert whole[1] == e[1] && whole[1] == f[1];
    }
    assert |e| == |f|;
    assert whole[..|e|] == e && whole[..|e|] == f;
    assert whole[|e|..] == x && whole[|e|..] == y;
    EscapeInjective(c, d);
  }

  lemma {:induction false} EscapeAll(s: string, x: string, t: string, y: string)
    requires Escape(s, x) == Escape(t, y)
    ensures s == t && x == y
    decreases |s|
  {
    hide EscapeChar;
    if s == "" && t == "" {
      Chop('"', x, '"', y);
    } else if s != "" && t != "" {
      EscapeOne(s[0], Escape(s[1..], x), t[0], Escape(t[1..], y));
      EscapeAll(s[1..], x, t[1..], y);
      assert s == [s[0]] + s[1..] && t == [t[0]] + t[1..];
    } else {
      EscapeStart(s, x);
      EscapeStart(t, y);
    }
  }

  lemma EscapeStart(s: string, x: string)
    ensures Escape(s, x)[0] == '"' <==> s == ""
  {
    hide EscapeChar;
    if s != "" { assert Escape(s, x)[0] == EscapeChar(s[0])[0]; }
  }

  lemma {:induction false} AtomOne(a: string, x: string, b: string, y: string)
    requires AtomChars(a) && AtomChars(b)
    requires Stops(x) && Stops(y) && a + x == b + y
    ensures a == b && x == y
    decreases |a|
  {
    AtomStart(a, x);
    AtomStart(b, y);
    if a == "" {
      assert a + x == x && b + y == y;
    } else {
      assert (a + x)[0] == a[0] && (b + y)[0] == b[0];
      assert (a + x)[1..] == a[1..] + x && (b + y)[1..] == b[1..] + y;
      AtomOne(a[1..], x, b[1..], y);
      assert a == [a[0]] + a[1..] && b == [b[0]] + b[1..];
    }
  }

  lemma AtomStart(a: string, x: string)
    requires Stops(x) && AtomChars(a)
    ensures Stops(a + x) <==> a == ""
  {
    if a == "" {
      assert a + x == x;
    } else {
      assert (a + x)[0] == a[0];
    }
  }

  // The first character of a value's text shows what kind it is.
  lemma FirstChar(v: Json, x: string)
    requires IsValue(v)
    ensures var p := Print(v, x);
      && p != ""
      && (v.Atom? <==> AtomChar(p[0])) && (v.Text? <==> p[0] == '"')
      && (v.Array? <==> p[0] == '[') && (v.Object? <==> p[0] == '{') && p[0] != ']'
  {
    hide Escape, Numbers.Text, IsScalar;
    if v.Atom? {
      TextShape(v.a);
      assert Print(v, x)[0] == Numbers.Text(v.a)[0];
    }
  }

  lemma TailStops(items: Items, x: string)
    ensures Stops(PrintTail(items, x))
  {}

  lemma RestStops(m: Members, x: string)
    ensures Stops(PrintRest(m, x))
  {}

  // Two values with the same text, whatever follows each, are the same value.
  lemma {:induction false} PrintOne(v: Json, x: string, w: Json, y: string)
    requires IsValue(v) && IsValue(w) && Stops(x) && Stops(y) && Print(v, x) == Print(w, y)
    ensures v == w && x == y
    decreases v
  {
    hide Escape, PrintTail, PrintMember, Stops, Numbers.Text, IsScalar;
    FirstChar(v, x);
    FirstChar(w, y);
    match v
    case Atom(a) =>
      TextShape(a);
      TextShape(w.a);
      AtomOne(Numbers.Text(a), x, Numbers.Text(w.a), y);
      TextOne(a, w.a);
    case Text(s) =>
      Chop('"', Escape(s, x), '"', Escape(w.s, y));
      EscapeAll(s, x, w.s, y);
    case Array(items) => ItemsOne(items, x, w.items, y);
    case Object(m) => MembersOne(m, x, w.members, y);
  }

  lemma {:induction false} ItemsOne(a: Items, x: string, b: Items, y: string)
    requires AreItems(a) && AreItems(b) && Stops(x) && Stops(y)
    requires Print(Array(a), x) == Print(Array(b), y)
    ensures a == b && x == y
    decreases a
  {
    hide PrintTail, Stops;
    var p := if a.NoItem? then [']'] + x else Print(a.head, PrintTail(a.tail, x));
    var q := if b.NoItem? then [']'] + y else Print(b.head, PrintTail(b.tail, y));
    Chop('[', p, '[', q);
    if a.Item? { FirstChar(a.head, PrintTail(a.tail, x)); }
    if b.Item? { FirstChar(b.head, PrintTail(b.tail, y)); }
    assert (p[0] == ']' <==> a.NoItem?) && (q[0] == ']' <==> b.NoItem?);
    if a.NoItem? {
      Chop(']', x, ']', y);
    } else {
      TailStops(a.tail, x);
      TailStops(b.tail, y);
      PrintOne(a.head, PrintTail(a.tail, x), b.head, PrintTail(b.tail, y));
      TailOne(a.tail, x, b.tail, y);
    }
  }

  lemma {:induction false} TailOne(a: Items, x: string, b: Items, y: string)
    requires AreItems(a) && AreItems(b) && PrintTail(a, x) == PrintTail(b, y)
    ensures a == b && x == y
    decreases a
  {
    hide Print, Stops;
    TailStart(a, x);
    TailStart(b, y);
    if a.NoItem? {
      Chop(']', x, ']', y);
    } else {
      var p, q := Print(a.head, PrintTail(a.tail, x)), Print(b.head, PrintTail(b.tail, y));
      Chop(',', [' '] + p, ',', [' '] + q);
      Chop(' ', p, ' ', q);
      TailStops(a.tail, x);
      TailStops(b.tail, y);
      PrintOne(a.head, PrintTail(a.tail, x), b.head, PrintTail(b.tail, y));
      TailOne(a.tail, x, b.tail, y);
    }
  }

  lemma TailStart(items: Items, x: string)
    ensures PrintTail(items, x)[0] == if items.NoItem? then ']' else ','
  {}

  lemma {:induction false} MembersOne(m: Members, x: string, n: Members, y: string)
    requires AreMembers(m) && AreMembers(n) && Print(Object(m), x) == Print(Object(n), y)
    ensures m == n && x == y
    decreases m, 2
  {
    hide Escape;
    var p := if m.NoMember? then ['}'] + x else PrintMember(m, x);
    var q := if n.NoMember? then ['}'] + y else PrintMember(n, y);
    Chop('{', p, '{', q);
    assert p[0] == (if m.NoMember? then '}' else '"');
    assert q[0] == (if n.NoMember? then '}' else '"');
    if m.NoMember? {
      Chop('}', x, '}', y);
    } else {
      MemberOne(m, x, n, y);
    }
  }

  lemma {:induction false} MemberOne(m: Members, x: string, n: Members, y: string)
    requires m.Member? && n.Member? && AreMembers(m) && AreMembers(n) && PrintMember(m, x) == PrintMember(n, y)
    ensures m == n && x == y
    decreases m, 1
  {
    hide Print, Escape, PrintRest, Stops;
    var p, q := Print(m.value, PrintRest(m.rest, x)), Print(n.value, PrintRest(n.rest, y));
    var p1, q1 := [':'] + ([' '] + p), [':'] + ([' '] + q);
    Chop('"', Escape(m.key, p1), '"', Escape(n.key, q1));
    EscapeAll(m.key, p1, n.key, q1);
    Chop(':', [' '] + p, ':', [' '] + q);
    Chop(' ', p, ' ', q);
    RestStops(m.rest, x);
    RestStops(n.rest, y);
    PrintOne(m.value, PrintRest(m.rest, x), n.value, PrintRest(n.rest, y));
    RestOne(m.rest, x, n.rest, y);
  }

  lemma {:induction false} RestOne(m: Members, x: string, n: Members, y: string)
    requires AreMembers(m) && AreMembers(n) && PrintRest(m, x) == PrintRest(n, y)
    ensures m == n && x == y
    decreases m, 2
  {
    hide PrintMember;
    assert PrintRest(m, x)[0] == (if m.NoMember? then '}' else ',');
    assert PrintRest(n, y)[0] == (if n.NoMember? then '}' else ',');
    if m.NoMember? {
      Chop('}', x, '}', y);
    } else {
      Chop(',', [' '] + PrintMember(m, x), ',', [' '] + PrintMember(n, y));
      Chop(' ', PrintMember(m, x), ' ', PrintMember(n, y));
      MemberOne(m, x, n, y);
    }
  }

  // The text tells equal values apart exactly by their kinds and the order of their keys.
  lemma TextIff(v: Json, w: Json)
    requires IsValue(v) && IsValue(w)
    ensures Print(v, "") == Print(w, "") <==> Same(v, w) && SameKinds(v, w) && SameOrder(v, w)
  {
    if Print(v, "") == Print(w, "") {
      PrintOne(v, "", w, "");
      SameSelf(v);
    }
    if Same(v, w) && SameKinds(v, w) && SameOrder(v, w) {
      SameInOrder(v, w);
    }
  }
}
