/**
 A naive LFU cache with no frequency lists: every key carries its frequency and
 the time it last changed frequency, and an eviction scans for the least
 (frequency, time). The indexed cache refines it, step by step and over runs,
 and its bindings are those of a plain map that forgets only what it evicts.
 */
module LfuReference {
  import opened LfuIndex
  import opened LfuProperties

  datatype RefEntry<V> = RefEntry(freq: int, stamp: int, value: V)

  datatype Ref<K, V> = Ref(
    capacity: nat, maxAverage: int, total: int, clock: int, entries: map<K, RefEntry<V>>)

  ghost function RefInit<K, V>(capacity: nat, maxAverage: int): Ref<K, V> {
    Ref(capacity, maxAverage, 0, 0, map[])
  }

  // Give k frequency f now.
  ghost function RefMove<K, V>(r: Ref<K, V>, k: K, f: int): Ref<K, V>
    requires k in r.entries
  {
    r.(clock := r.clock + 1, entries := r.entries[k := RefEntry(f, r.clock, r.entries[k].value)])
  }

  // Every frequency goes down by half the limit, rounded toward zero, but not below 1.
  ghost function RefAgeAll<K, V>(r: Ref<K, V>, order: seq<K>): Ref<K, V>
    requires forall k :: k in order ==> k in r.entries
    decreases |order|
  {
    if order == [] then r
    else
      var half := if r.maxAverage >= 0 then r.maxAverage / 2 else -(-r.maxAverage / 2);
      var less := r.entries[order[0]].freq - half;
      RefAgeAll(RefMove(r, order[0], if less >= 1 then less else 1), order[1..])
  }

  ghost function RefAccess<K, V>(r: Ref<K, V>, order: seq<K>): Ref<K, V>
    requires Enumerates(order, r.entries.Keys)
  {
    var n := r.(total := r.total + 1);
    if r.entries != map[] && n.total / |r.entries| > n.maxAverage then RefAgeAll(n, order) else n
  }

  ghost function RefInsert<K, V>(r: Ref<K, V>, k: K, v: V): Ref<K, V> {
    r.(clock := r.clock + 1, entries := r.entries[k := RefEntry(1, r.clock, v)])
  }

  // k is the key to evict: least frequency, and among those the one that got it first.
  ghost predicate IsVictim<K, V>(r: Ref<K, V>, k: K) {
    k in r.entries &&
    forall j :: j in r.entries ==>
      r.entries[k].freq < r.entries[j].freq
      || (r.entries[k].freq == r.entries[j].freq && r.entries[k].stamp <= r.entries[j].stamp)
  }

  ghost function RefEvict<K, V>(r: Ref<K, V>, k: K): Ref<K, V>
    requires k in r.entries
  {
    r.(total := r.total - r.entries[k].freq, entries := r.entries - {k})
  }

  // Insert k into room, a reference cache that has a free place for it.
  ghost predicate RefFill<K, V>(room: Ref<K, V>, k: K, v: V, order: seq<K>, next: Ref<K, V>) {
    Enumerates(order, RefInsert(room, k, v).entries.Keys) && next == RefAccess(RefInsert(room, k, v), order)
  }

  ghost function RefGet<K, V>(r: Ref<K, V>, k: K, order: seq<K>): Ref<K, V>
    requires Enumerates(order, r.entries.Keys)
  {
    if k in r.entries then RefAccess(RefMove(r, k, r.entries[k].freq + 1), order) else r
  }

  ghost predicate RefStep<K, V>(r: Ref<K, V>, op: Op<K, V>, next: Ref<K, V>) {
    match op
    case GetOp(k, order) =>
      Enumerates(order, r.entries.Keys) && next == RefGet(r, k, order)
    case PutOp(k, v, order) =>
      if r.capacity == 0 then next == r
      else if k in r.entries then
        Enumerates(order, r.entries.Keys) && next == RefGet(RefWithValue(r, k, v), k, order)
      else if |r.entries| == r.capacity then
        exists victim | victim in r.entries :: IsVictim(r, victim) && RefFill(RefEvict(r, victim), k, v, order, next)
      else RefFill(r, k, v, order, next)
    case PurgeOp => next == r.(entries := map[])
  }

  ghost function RefWithValue<K, V>(r: Ref<K, V>, k: K, v: V): (s: Ref<K, V>)
    requires k in r.entries
    ensures s.entries.Keys == r.entries.Keys
  {
    r.(entries := r.entries[k := r.entries[k].(value := v)])
  }

  ghost predicate RefReaches<K(!new), V(!new)>(r: Ref<K, V>, ops: seq<Op<K, V>>, next: Ref<K, V>)
    decreases |ops|
  {
    if ops == [] then next == r
    else exists mid :: RefStep(r, ops[0], mid) && RefReaches(mid, ops[1..], next)
  }

  // ---------------------------------------------------------------- simulation relation

  // A list holds its keys in the order in which they got their frequency.
  ghost predicate Ascending<K, V>(l: seq<K>, m: map<K, RefEntry<V>>) {
    l == [] ||
    (l[0] in m && (forall x :: x in l[1..] ==> x in m && m[l[0]].stamp < m[x].stamp) && Ascending(l[1..], m))
  }

  ghost predicate SameEntries<K, V>(c: map<K, Entry<V>>, r: map<K, RefEntry<V>>, clock: int) {
    && c.Keys == r.Keys
    && (forall k :: k in c ==> c[k] == Entry(r[k].freq, r[k].value))
    && (forall k :: k in r ==> r[k].stamp < clock)
  }

  ghost predicate InOrder<K, V>(lists: map<int, seq<K>>, m: map<K, RefEntry<V>>) {
    forall f :: Ascending(ListAt(lists, f), m)
  }

  ghost predicate Sim<K, V>(c: Cache<K, V>, r: Ref<K, V>) {
    && c.capacity == r.capacity && c.maxAverage == r.maxAverage && c.total == r.total
    && SameEntries(c.entries, r.entries, r.clock)
    && InOrder(c.lists, r.entries)
  }

  // ---------------------------------------------------------------- ordered lists

  lemma {:induction false} AscendingWithout<K, V>(l: seq<K>, k: K, m: map<K, RefEntry<V>>)
    requires NoDup(l) && Ascending(l, m)
    ensures Ascending(Without(l, k), m)
  {
    if l != [] && l[0] != k {
      AscendingWithout(l[1..], k, m);
      WithoutFacts(l[1..], k);
      var w := Without(l[1..], k);
      assert ([l[0]] + w)[1..] == w;
    }
  }

  lemma {:induction false} AscendingAppend<K, V>(l: seq<K>, k: K, m: map<K, RefEntry<V>>)
    requires Ascending(l, m) && k in m
    requires forall x :: x in l ==> x in m && m[x].stamp < m[k].stamp
    ensures Ascending(l + [k], m)
  {
    if l == [] {
      assert l + [k] == [k];
    } else {
      AscendingAppend(l[1..], k, m);
      assert (l + [k])[1..] == l[1..] + [k];
      assert l[0] in l;
    }
  }

  // Only the stamps of its own members matter to a list.
  lemma {:induction false} AscendingSame<K, V>(l: seq<K>, m: map<K, RefEntry<V>>, n: map<K, RefEntry<V>>)
    requires Ascending(l, m)
    requires forall x :: x in l && x in m ==> x in n && n[x].stamp == m[x].stamp
    ensures Ascending(l, n)
  {
    if l != [] {
      assert l[0] in l;
      assert forall x :: x in l[1..] ==> x in l;
      AscendingSame(l[1..], m, n);
    }
  }

  lemma {:induction false} AscendingHead<K, V>(l: seq<K>, x: K, m: map<K, RefEntry<V>>)
    requires Ascending(l, m) && x in l
    ensures l[0] in m && x in m && m[l[0]].stamp <= m[x].stamp
  {
    if x != l[0] {
      assert x in l[1..];
    }
  }

  // ---------------------------------------------------------------- simulation, piece by piece

  lemma MoveOrder<K, V>(c: Cache<K, V>, r: Ref<K, V>, k: K, f: int, g: int)
    requires Sim(c, r) && Indexed(c) && k in c.entries
    ensures Ascending(ListAt(Move(c, k, f).lists, g), RefMove(r, k, f).entries)
  {
    hide Indexed, ListAt, Move;
    MoveLists(c, k, f, g);
    var l := ListAt(c.lists, g);
    var kept := if g == c.entries[k].freq then Without(l, k) else l;
    var m := RefMove(r, k, f).entries;
    IndexedAt(c, g);
    assert Ascending(l, r.entries);
    WithoutFacts(l, k);
    AscendingWithout(l, k, r.entries);
    if g == c.entries[k].freq {
      assert forall x :: x in kept ==> x in l && x != k;
    } else {
      assert k !in l;
    }
    assert forall x :: x in kept ==> x in r.entries && m[x] == r.entries[x];
    AscendingSame(kept, r.entries, m);
    if g == f { AscendingAppend(kept, k, m); } else { assert kept + [] == kept; }
  }

  lemma MoveSim<K, V>(c: Cache<K, V>, r: Ref<K, V>, k: K, f: int)
    requires Sim(c, r) && Indexed(c) && k in c.entries
    ensures Sim(Move(c, k, f), RefMove(r, k, f))
  {
    hide Indexed, Ascending, Move, ListAt;
    MoveFacts(c, k, f);
    MoveRest(c, k, f);
    forall g ensures Ascending(ListAt(Move(c, k, f).lists, g), RefMove(r, k, f).entries) {
      MoveOrder(c, r, k, f, g);
    }
  }

  lemma {:induction false} AgeAllSim<K, V>(c: Cache<K, V>, r: Ref<K, V>, order: seq<K>)
    requires Sim(c, r) && Indexed(c)
    requires forall k :: k in order ==> k in c.entries && k in r.entries
    ensures Sim(AgeAll(c, order), RefAgeAll(r, order))
    decreases |order|
  {
    hide Indexed, InOrder, Move, RefMove;
    if order != [] {
      var k := order[0];
      var f := Aged(c.entries[k].freq, c.maxAverage);
      MoveSim(c, r, k, f);
      MoveFacts(c, k, f);
      RefMoveKeys(r, k, f);
      AgeAllSim(Move(c, k, f), RefMove(r, k, f), order[1..]);
    }
  }

  lemma RefMoveKeys<K, V>(r: Ref<K, V>, k: K, f: int)
    requires k in r.entries
    ensures RefMove(r, k, f).entries.Keys == r.entries.Keys
  {}

  lemma AccessSim<K, V>(c: Cache<K, V>, r: Ref<K, V>, order: seq<K>)
    requires Sim(c, r) && Indexed(c) && Enumerates(order, c.entries.Keys)
    ensures c.entries.Keys == r.entries.Keys
    ensures Sim(AddFreqNum(c, order), RefAccess(r, order))
  {
    hide Indexed, InOrder, NoDup, AgeAll, RefAgeAll, LeastOccupied;
    var n := Counted(c);
    SameLists(c, n);
    assert |c.entries| == |c.entries.Keys| == |r.entries.Keys| == |r.entries|;
    if n.average > n.maxAverage {
      assert c.entries != map[] ==> r.entries != map[] by {
        assert c.entries.Keys == r.entries.Keys;
      }
      AgeAllSim(n, r.(total := r.total + 1), order);
    }
  }

  // The head of the list at the cached minimum is the key the reference evicts.
  lemma VictimSim<K, V>(c: Cache<K, V>, r: Ref<K, V>)
    requires Sim(c, r) && Indexed(c) && MinExact(c)
    ensures Victim(c) in c.entries && IsVictim(r, Victim(c))
  {
    hide Ascending, NoDup, ListAt;
    var head := ListAt(c.lists, c.minFreq);
    assert Ascending(head, r.entries);
    assert Victim(c) == head[0] by { VictimHead(c); }
    assert head[0] in head;
    forall j | j in r.entries
      ensures r.entries[head[0]].freq < r.entries[j].freq
        || (r.entries[head[0]].freq == r.entries[j].freq && r.entries[head[0]].stamp <= r.entries[j].stamp)
    {
      assert j in c.entries && j in ListAt(c.lists, c.entries[j].freq);
      if c.entries[j].freq == c.minFreq { AscendingHead(head, j, r.entries); }
    }
  }

  lemma VictimHead<K, V>(c: Cache<K, V>)
    requires ListAt(c.lists, c.minFreq) != []
    ensures Victim(c) == ListAt(c.lists, c.minFreq)[0]
  {}

  lemma KickOutSim<K, V>(c: Cache<K, V>, r: Ref<K, V>)
    requires Sim(c, r) && Indexed(c) && MinExact(c)
    ensures Victim(c) in c.entries && Victim(c) in r.entries
    ensures Sim(KickOut(c), RefEvict(r, Victim(c)))
  {
    hide Indexed, MinExact, Victim, ListAt, KickOut, Ascending, Without, NoDup, IsVictim, SumFreq;
    MinOccupied(c);
    VictimSim(c, r);
    KickOutSum(c);
    KickOutRest(c);
    IndexedAt(c, c.minFreq);
    VictimAt(c);
    var k := Victim(c);
    var m := r.entries - {k};
    forall g ensures Ascending(ListAt(KickOut(c).lists, g), m) {
      KickOutLists(c, g);
      IndexedAt(c, g);
      var l := ListAt(c.lists, g);
      WithoutFacts(l, k);
      AscendingWithout(l, k, r.entries);
      AscendingSame(ListAt(KickOut(c).lists, g), r.entries, m);
    }
    KickOutTotalIs(c);
  }

  lemma MinOccupied<K, V>(c: Cache<K, V>)
    requires MinExact(c)
    ensures ListAt(c.lists, c.minFreq) != []
  {}

  lemma IndexedAt<K, V>(c: Cache<K, V>, f: int)
    requires Indexed(c)
    ensures NoDup(ListAt(c.lists, f))
    ensures forall k :: k in ListAt(c.lists, f) ==> k in c.entries && c.entries[k].freq == f
  {}

  lemma KickOutTotalIs<K, V>(c: Cache<K, V>)
    requires ListAt(c.lists, c.minFreq) != [] && Victim(c) in c.entries
    ensures KickOut(c).total == c.total - c.entries[Victim(c)].freq
  {}

  lemma InsertSim<K, V>(c: Cache<K, V>, r: Ref<K, V>, k: K, v: V)
    requires Sim(c, r) && Indexed(c) && k !in c.entries
    ensures Sim(Insert(c, k, v), RefInsert(r, k, v))
  {
    hide Indexed, ListAt, Insert, Ascending, NoDup, SumFreq;
    InsertSum(c, k, v);
    InsertRest(c, k, v);
    var m := RefInsert(r, k, v).entries;
    forall g ensures Ascending(ListAt(Insert(c, k, v).lists, g), m) {
      InsertLists(c, k, v, g);
      IndexedAt(c, g);
      var l := ListAt(c.lists, g);
      AscendingSame(l, r.entries, m);
      if g == 1 { AscendingAppend(l, k, m); } else { assert l + [] == l; }
    }
  }

  lemma SimSameLists<K, V>(c: Cache<K, V>, d: Cache<K, V>, r: Ref<K, V>)
    requires Sim(c, r) && d.entries == c.entries && d.lists == c.lists
    requires d.total == c.total && d.capacity == c.capacity && d.maxAverage == c.maxAverage
    ensures Sim(d, r)
  {}

  lemma GetSim<K, V>(c: Cache<K, V>, r: Ref<K, V>, k: K, order: seq<K>)
    requires Sim(c, r) && Indexed(c) && Enumerates(order, c.entries.Keys)
    ensures c.entries.Keys == r.entries.Keys
    ensures Sim(Get(c, k, order), RefGet(r, k, order))
  {
    hide Indexed, InOrder, Move, RefMove, Hit, AddFreqNum, RefAccess, Enumerates;
    if k in c.entries {
      var f := c.entries[k].freq + 1;
      MoveSim(c, r, k, f);
      MoveFacts(c, k, f);
      MoveRest(c, k, f);
      RefMoveKeys(r, k, f);
      HitFields(c, k);
      SimSameLists(Move(c, k, f), Hit(c, k), RefMove(r, k, f));
      SameLists(Move(c, k, f), Hit(c, k));
      AccessSim(Hit(c, k), RefMove(r, k, f), order);
    }
  }

  lemma WithValueSim<K, V>(c: Cache<K, V>, r: Ref<K, V>, k: K, v: V)
    requires Sim(c, r) && k in c.entries
    ensures k in r.entries && Sim(WithValue(c, k, v), RefWithValue(r, k, v))
  {
    hide Ascending, ListAt;
    var m := RefWithValue(r, k, v).entries;
    forall g ensures Ascending(ListAt(c.lists, g), m) {
      AscendingSame(ListAt(c.lists, g), r.entries, m);
    }
  }

  lemma FillSim<K, V>(room: Cache<K, V>, r: Ref<K, V>, k: K, v: V, order: seq<K>)
    returns (next: Ref<K, V>)
    requires Sim(room, r) && Indexed(room) && Positive(room) && k !in room.entries
    requires Enumerates(order, room.entries.Keys + {k})
    ensures RefFill(r, k, v, order, next)
    ensures Sim(AddFreqNum(Insert(room, k, v), order), next)
  {
    hide Indexed, Positive, InOrder, Insert, AddFreqNum, RefAccess, Enumerates, SumFreq;
    InsertSim(room, r, k, v);
    InsertKeeps(room, k, v);
    InsertSum(room, k, v);
    assert Insert(room, k, v).entries.Keys == room.entries.Keys + {k};
    AccessSim(Insert(room, k, v), RefInsert(r, k, v), order);
    next := RefAccess(RefInsert(r, k, v), order);
  }

  lemma PutNewSim<K, V>(c: Cache<K, V>, r: Ref<K, V>, k: K, v: V, order: seq<K>) returns (next: Ref<K, V>)
    requires Sim(c, r) && Inv(c) && c.capacity > 0 && k !in c.entries
    requires CanPut(c, k) && Enumerates(order, KeysOnPut(c, k))
    ensures RefStep(r, PutOp(k, v, order), next)
    ensures Sim(Put(c, k, v, order), next)
  {
    hide Indexed, Positive, MinExact, InOrder, Insert, KickOut, AddFreqNum, RefAccess, Enumerates, SumFreq,
      IsVictim, RefFill, RefEvict, RefGet, ListAt;
    MakeRoomKeeps(c, k);
    assert |c.entries| == |c.entries.Keys| == |r.entries.Keys| == |r.entries|;
    if Full(c, k) {
      KickOutSim(c, r);
      VictimSim(c, r);
      next := FillSim(KickOut(c), RefEvict(r, Victim(c)), k, v, order);
    } else {
      next := FillSim(c, r, k, v, order);
    }
    InsertSum(MakeRoom(c, k), k, v);
    assert Insert(MakeRoom(c, k), k, v).entries.Keys == KeysOnPut(c, k);
    AccessRest(Insert(MakeRoom(c, k), k, v), order);
    var d := AddFreqNum(Insert(MakeRoom(c, k), k, v), order);
    SimSameLists(d, Put(c, k, v, order), next);
  }

  lemma PutSim<K, V>(c: Cache<K, V>, r: Ref<K, V>, k: K, v: V, order: seq<K>) returns (next: Ref<K, V>)
    requires Sim(c, r) && Inv(c) && CanPut(c, k) && Enumerates(order, KeysOnPut(c, k))
    ensures RefStep(r, PutOp(k, v, order), next)
    ensures Sim(Put(c, k, v, order), next)
  {
    hide Indexed, Positive, MinExact, InOrder, Insert, MakeRoom, CanPut, AddFreqNum, Hit, Enumerates, SumFreq, RefGet, RefFill;
    if c.capacity == 0 {
      next := r;
    } else if k in c.entries {
      MakeRoomSame(c, k);
      assert KeysOnPut(c, k) == c.entries.Keys;
      WithValueSim(c, r, k, v);
      WithValueIndexed(c, k, v);
      GetSim(WithValue(c, k, v), RefWithValue(r, k, v), k, order);
      next := RefGet(RefWithValue(r, k, v), k, order);
    } else {
      next := PutNewSim(c, r, k, v, order);
    }
  }

  lemma PurgeSim<K, V>(c: Cache<K, V>, r: Ref<K, V>)
    requires Sim(c, r)
    ensures Sim(Purge(c), r.(entries := map[]))
  {}

  // Every operation of the index is the same operation of the reference cache.
  lemma StepSim<K, V>(c: Cache<K, V>, r: Ref<K, V>, op: Op<K, V>) returns (next: Ref<K, V>)
    requires Sim(c, r) && Inv(c) && Ready(c, op)
    ensures RefStep(r, op, next) && Sim(Apply(c, op), next)
  {
    hide Indexed, Positive, MinExact, InOrder, Get, Put, Purge, KeysOnPut, CanPut, Enumerates, SumFreq, RefGet;
    match op
    case GetOp(k, order) =>
      GetSim(c, r, k, order);
      next := RefGet(r, k, order);
    case PutOp(k, v, order) =>
      next := PutSim(c, r, k, v, order);
    case PurgeOp =>
      PurgeSim(c, r);
      next := r.(entries := map[]);
  }

  lemma {:induction false} RunSim<K(!new), V(!new)>(c: Cache<K, V>, r: Ref<K, V>, ops: seq<Op<K, V>>, d: Cache<K, V>)
    returns (next: Ref<K, V>)
    requires Sim(c, r) && Inv(c) && GoodAverage(c.maxAverage) && Reaches(c, ops, d)
    ensures RefReaches(r, ops, next) && Sim(d, next)
    decreases |ops|
  {
    hide Sim, Inv, Ready, Apply, RefStep;
    if ops == [] {
      next := r;
    } else {
      var mid := StepSim(c, r, ops[0]);
      ApplyKeeps(c, ops[0]);
      next := RunSim(Apply(c, ops[0]), mid, ops[1..], d);
    }
  }

  // The cache with frequency lists refines the naive one, for every run and every ageing order.
  lemma Refines<K(!new), V(!new)>(capacity: nat, maxAverage: int, ops: seq<Op<K, V>>, d: Cache<K, V>)
    returns (next: Ref<K, V>)
    requires GoodAverage(maxAverage) && Reaches(Init(capacity, maxAverage), ops, d)
    ensures RefReaches(RefInit(capacity, maxAverage), ops, next)
    ensures d.entries.Keys == next.entries.Keys
    ensures forall k :: k in d.entries ==>
      d.entries[k].value == next.entries[k].value && d.entries[k].freq == next.entries[k].freq
  {
    hide Reaches, RefReaches, Inv, InOrder;
    InitInv<K, V>(capacity, maxAverage);
    InitSim<K, V>(capacity, maxAverage);
    next := RunSim(Init(capacity, maxAverage), RefInit(capacity, maxAverage), ops, d);
  }

  lemma InitSim<K, V>(capacity: nat, maxAverage: int)
    ensures Sim<K, V>(Init(capacity, maxAverage), RefInit(capacity, maxAverage))
  {}

  // ---------------------------------------------------------------- bindings

  ghost function Bindings<K, V>(c: Cache<K, V>): map<K, V> {
    map k | k in c.entries :: c.entries[k].value
  }

  lemma AccessBindings<K, V>(c: Cache<K, V>, order: seq<K>)
    requires Indexed(c) && Enumerates(order, c.entries.Keys)
    ensures Bindings(AddFreqNum(c, order)) == Bindings(c)
  {
    hide Indexed, LeastOccupied, ListAt;
    var n := Counted(c);
    SameLists(c, n);
    if n.average > n.maxAverage {
      AgeAllFacts(n, order);
      forall k | k in c.entries ensures AgeAll(n, order).entries[k].value == c.entries[k].value {
        assert AgedEntry(n, AgeAll(n, order), order, k);
      }
    }
  }

  // A lookup changes no binding.
  lemma GetBindings<K, V>(c: Cache<K, V>, k: K, order: seq<K>)
    requires Indexed(c) && Enumerates(order, c.entries.Keys)
    ensures Bindings(Get(c, k, order)) == Bindings(c)
  {
    hide Indexed, AddFreqNum, Enumerates, Hit, Move;
    if k in c.entries {
      var f := c.entries[k].freq + 1;
      HitFields(c, k);
      MoveFacts(c, k, f);
      SameLists(Move(c, k, f), Hit(c, k));
      AccessBindings(Hit(c, k), order);
      assert Bindings(Hit(c, k)) == Bindings(c);
    }
  }

  // An insertion binds k to v and keeps every other binding, except that at
  // capacity exactly one key goes: the earliest of those with the least frequency.
  lemma PutBindings<K, V>(c: Cache<K, V>, r: Ref<K, V>, k: K, v: V, order: seq<K>)
    requires Inv(c) && Sim(c, r) && c.capacity > 0
    requires CanPut(c, k) && Enumerates(order, KeysOnPut(c, k))
    ensures !Full(c, k) ==> Bindings(Put(c, k, v, order)) == Bindings(c)[k := v]
    ensures Full(c, k) ==>
      IsVictim(r, Victim(c)) && Victim(c) in c.entries
      && Bindings(Put(c, k, v, order)) == (Bindings(c) - {Victim(c)})[k := v]
  {
    hide Indexed, Positive, SumFreq, Sim, IsVictim, AddFreqNum, Enumerates, Hit, Insert, KickOut, Bindings;
    if k in c.entries {
      MakeRoomSame(c, k);
      assert KeysOnPut(c, k) == c.entries.Keys;
      WithValueIndexed(c, k, v);
      GetBindings(WithValue(c, k, v), k, order);
      WithValueBindings(c, k, v);
    } else {
      FillBindings(c, k, v, order);
      if Full(c, k) {
        VictimSim(c, r);
        KickOutKept(c);
      }
    }
  }

  lemma WithValueBindings<K, V>(c: Cache<K, V>, k: K, v: V)
    requires k in c.entries
    ensures Bindings(WithValue(c, k, v)) == Bindings(c)[k := v]
  {}

  lemma FillBindings<K, V>(c: Cache<K, V>, k: K, v: V, order: seq<K>)
    requires Inv(c) && c.capacity > 0 && k !in c.entries
    requires CanPut(c, k) && Enumerates(order, KeysOnPut(c, k))
    ensures Bindings(Put(c, k, v, order)) == Bindings(MakeRoom(c, k))[k := v]
  {
    hide Inv, Indexed, Positive, SumFreq, CanPut, AddFreqNum, Enumerates, Insert, MakeRoom;
    MakeRoomKeeps(c, k);
    var room := MakeRoom(c, k);
    InsertKeeps(room, k, v);
    InsertSum(room, k, v);
    assert Insert(room, k, v).entries.Keys == KeysOnPut(c, k);
    AccessBindings(Insert(room, k, v), order);
    assert Bindings(Insert(room, k, v)) == Bindings(room)[k := v];
    AccessRest(Insert(room, k, v), order);
    assert Bindings(Put(c, k, v, order)) == Bindings(AddFreqNum(Insert(room, k, v), order));
  }

  lemma KickOutKept<K, V>(c: Cache<K, V>)
    requires ListAt(c.lists, c.minFreq) != [] && Victim(c) in c.entries
    ensures Bindings(KickOut(c)) == Bindings(c) - {Victim(c)}
  {}

  // A plain map with the same puts and purges, and no eviction.
  ghost function Remembered<K, V>(m: map<K, V>, ops: seq<Op<K, V>>): map<K, V>
    decreases |ops|
  {
    if ops == [] then m
    else
      var next := match ops[0]
        case GetOp(_, _) => m
        case PutOp(k, v, _) => m[k := v]
        case PurgeOp => map[];
      Remembered(next, ops[1..])
  }

  ghost predicate Within<K, V>(small: map<K, V>, big: map<K, V>) {
    forall k :: k in small ==> k in big && small[k] == big[k]
  }

  lemma StepWithin<K, V>(c: Cache<K, V>, r: Ref<K, V>, op: Op<K, V>, m: map<K, V>)
    requires Inv(c) && Sim(c, r) && Ready(c, op) && Within(Bindings(c), m)
    ensures Within(Bindings(Apply(c, op)),
      match op
      case GetOp(_, _) => m
      case PutOp(k, v, _) => m[k := v]
      case PurgeOp => map[])
  {
    hide Indexed, Positive, SumFreq, MinExact, Sim, IsVictim, Enumerates, CanPut, KeysOnPut, Get, Put;
    match op
    case GetOp(k, order) => GetBindings(c, k, order);
    case PutOp(k, v, order) =>
      if c.capacity > 0 { PutBindings(c, r, k, v, order); } else { NoCapacity(c, k, v, order); }
    case PurgeOp =>
  }

  lemma NoCapacity<K, V>(c: Cache<K, V>, k: K, v: V, order: seq<K>)
    requires c.capacity == 0 && |c.entries| <= 0 && CanPut(c, k) && Enumerates(order, KeysOnPut(c, k))
    ensures Put(c, k, v, order) == c && Bindings(c) == map[]
  {}

  lemma {:induction false} RunWithin<K, V>(
    c: Cache<K, V>, r: Ref<K, V>, ops: seq<Op<K, V>>, d: Cache<K, V>, m: map<K, V>)
    requires Inv(c) && GoodAverage(c.maxAverage) && Sim(c, r) && Reaches(c, ops, d) && Within(Bindings(c), m)
    ensures Within(Bindings(d), Remembered(m, ops))
    decreases |ops|
  {
    hide Inv, Sim, Ready, Apply, RefStep, Within, Bindings;
    if ops != [] {
      StepWithin(c, r, ops[0], m);
      var mid := StepSim(c, r, ops[0]);
      ApplyKeeps(c, ops[0]);
      var next := match ops[0]
        case GetOp(_, _) => m
        case PutOp(k, v, _) => m[k := v]
        case PurgeOp => map[];
      RunWithin(Apply(c, ops[0]), mid, ops[1..], d, next);
    }
  }

  // Whatever a hit returns is the value most recently put under that key.
  lemma HitReturnsLastPut<K, V>(capacity: nat, maxAverage: int, ops: seq<Op<K, V>>, d: Cache<K, V>, k: K)
    requires GoodAverage(maxAverage) && Reaches(Init(capacity, maxAverage), ops, d)
    requires k in d.entries
    ensures k in Remembered(map[], ops) && d.entries[k].value == Remembered(map[], ops)[k]
    ensures |d.entries| <= capacity
  {
    hide Reaches, Remembered, Indexed, Positive, SumFreq, MinExact, Sim;
    InitInv<K, V>(capacity, maxAverage);
    InitSim<K, V>(capacity, maxAverage);
    ReachableInv(capacity, maxAverage, ops, d, k);
    RunRest(Init(capacity, maxAverage), ops, d);
    RunWithin(Init(capacity, maxAverage), RefInit(capacity, maxAverage), ops, d, map[]);
    assert d.entries[k].value == Bindings(d)[k];
  }

  lemma {:induction false} RunRest<K, V>(c: Cache<K, V>, ops: seq<Op<K, V>>, d: Cache<K, V>)
    requires Reaches(c, ops, d)
    ensures d.capacity == c.capacity
    decreases |ops|
  {
    hide Ready, Apply;
    if ops != [] {
      ApplyRest(c, ops[0]);
      RunRest(Apply(c, ops[0]), ops[1..], d);
    }
  }
}
