/**
 What KLfuCache guarantees over every run, for every order in which the ageing
 pass may visit the map: exactness of the cached minimum (and for which limits
 it holds), refinement of a bounded map, and no integer overflow.
 */
module LfuProperties {
  import opened LfuIndex

  // ---------------------------------------------------------------- one operation

  lemma MulMonotone(a: int, b: int, n: nat)
    requires a <= b
    ensures a * n <= b * n
  {
    assert b * n == a * n + (b - a) * n;
  }

  lemma DivLower(a: int, n: int, t: int)
    requires n > 0 && a * n <= t
    ensures a <= t / n
  {
    var q := t / n;
    assert t == q * n + t % n;
    assert (q + 1) * n == q * n + n;
    if a > q {
      MulMonotone(q + 1, a, n);
    }
  }

  // The average bounds the least frequency: n * least <= sum <= total.
  lemma LeastBelowAverage<K, V>(c: Cache<K, V>)
    requires c.entries != map[] && SumFreq(c.entries) <= c.total
    requires forall k :: k in c.entries ==> c.minFreq <= c.entries[k].freq
    ensures c.minFreq <= c.total / |c.entries|
  {
    SumAtLeast(c.entries, c.minFreq);
    var n := |c.entries|;
    assert c.minFreq * n <= c.total;
    DivLower(c.minFreq, n, c.total);
  }

  lemma PositiveLeast<K, V>(c: Cache<K, V>)
    requires Indexed(c) && Positive(c)
    ensures LeastOccupied(c.lists) >= 1
  {
    var s := set f | f in Occupied(c.lists) && f < INT8_MAX;
    if s != {} {
      var f := MinOf(s);
      assert f in Occupied(c.lists);
      var k := ListAt(c.lists, f)[0];
      assert k in ListAt(c.lists, f);
      assert k in c.entries && c.entries[k].freq == f;
    }
  }

  // Ageing every key: the cached minimum becomes exact again and falls back under the limit.
  lemma AgeingRestores<K, V>(c: Cache<K, V>, order: seq<K>, low: K)
    requires GoodAverage(c.maxAverage) && Enumerates(order, c.entries.Keys)
    requires Indexed(c) && Positive(c)
    requires low in c.entries && c.entries[low].freq <= c.maxAverage + 1
    ensures var r := HandleOver(c, order);
      && Indexed(r) && Positive(r) && SumFreq(r.entries) <= SumFreq(c.entries)
      && MinExact(r) && 1 <= r.minFreq <= r.maxAverage
      && r.entries.Keys == c.entries.Keys
  {
    hide Indexed, Positive, NoDup, SumFreq, ListAt, MinExact, LeastOccupied;
    AgeAllFacts(c, order);
    AgeAllSum(c, order);
    var aged := AgeAll(c, order);
    assert AgedEntry(c, aged, order, low);
    LeastOccupiedExact(aged, low);
    PositiveLeast(aged);
    SameIndex(aged, HandleOver(c, order));
  }

  // What an ageing pass does to every key, in whatever order it visits them: the frequency
  // goes down by half the limit (up, for a negative one), but not below 1; the value stays.
  lemma AgeingExactly<K, V>(c: Cache<K, V>, order: seq<K>, k: K)
    requires Indexed(c) && Enumerates(order, c.entries.Keys) && k in c.entries
    ensures var r := HandleOver(c, order);
      && r.entries.Keys == c.entries.Keys && r.entries[k].value == c.entries[k].value
      && var before, now := c.entries[k].freq, r.entries[k].freq;
         var half := if c.maxAverage >= 0 then c.maxAverage / 2 else -(-c.maxAverage / 2);
         (now == before - half && now >= 1) || (now == 1 && before <= half)
  {
    hide Indexed, NoDup, ListAt, LeastOccupied;
    AgeAllFacts(c, order);
    assert AgedEntry(c, AgeAll(c, order), order, k);
  }

  // So of two keys the more used one stays ahead, as long as it stays above 1.
  lemma AgeingKeepsOrder<K, V>(c: Cache<K, V>, order: seq<K>, j: K, k: K)
    requires Indexed(c) && Enumerates(order, c.entries.Keys)
    requires j in c.entries && k in c.entries && c.entries[j].freq < c.entries[k].freq
    ensures var r := HandleOver(c, order);
      && j in r.entries && k in r.entries && r.entries[j].freq <= r.entries[k].freq
      && (r.entries[k].freq > 1 ==> r.entries[j].freq < r.entries[k].freq)
  {
    hide Indexed, HandleOver, Enumerates;
    AgeingExactly(c, order, j);
    AgeingExactly(c, order, k);
  }

  // The index conditions look only at the entries and the lists.
  lemma SameIndex<K, V>(c: Cache<K, V>, r: Cache<K, V>)
    requires Indexed(c) && Positive(c) && c.entries == r.entries && c.lists == r.lists
    ensures Indexed(r) && Positive(r)
    ensures c.minFreq == r.minFreq && MinExact(c) ==> MinExact(r)
  {}

  // What the access count does after the node has moved; low is any key whose
  // frequency is at most one above the limit.
  lemma AccessKeeps<K, V>(c: Cache<K, V>, order: seq<K>, low: K)
    requires GoodAverage(c.maxAverage) && Enumerates(order, c.entries.Keys)
    requires Indexed(c) && Positive(c) && SumFreq(c.entries) <= c.total + 1 && c.minFreq >= 1
    requires low in c.entries && c.entries[low].freq <= c.maxAverage + 1
    ensures var r := AddFreqNum(c, order);
      && Indexed(r) && Positive(r) && SumFreq(r.entries) <= r.total && r.minFreq >= 1
      && r.entries.Keys == c.entries.Keys
      && ((r.lists == c.lists && r.entries == c.entries && r.minFreq == c.minFreq)
          || (MinExact(r) && r.minFreq <= r.maxAverage))
      && (MinExact(c) ==> MinExact(r) && r.minFreq <= r.maxAverage)
  {
    var n := Counted(c);
    SameIndex(c, n);
    if n.average > n.maxAverage {
      hide Indexed, Positive, MinExact, HandleOver;
      AgeingRestores(n, order, low);
      assert AddFreqNum(c, order) == HandleOver(n, order);
      assert HandleOver(n, order).total == n.total by { HandleOverTotal(n, order); }
    } else if MinExact(c) {
      LeastBelowAverage(n);
    }
  }

  lemma HandleOverTotal<K, V>(c: Cache<K, V>, order: seq<K>)
    requires Enumerates(order, c.entries.Keys)
    ensures var r := HandleOver(c, order);
      r.total == c.total && r.maxAverage == c.maxAverage && r.capacity == c.capacity
  {}

  // The list of the cached minimum ran empty: every key is above it now.
  lemma HitRaises<K, V>(c: Cache<K, V>, k: K, moved: Cache<K, V>)
    requires Indexed(c) && MinExact(c) && k in c.entries && c.entries[k].freq == c.minFreq
    requires moved == Move(c, k, c.minFreq + 1) && ListAt(moved.lists, c.minFreq) == []
    ensures MinExact(moved.(minFreq := c.minFreq + 1))
  {
    hide Move, NoDup;
    MoveFacts(c, k, c.minFreq + 1);
    assert k in ListAt(moved.lists, c.minFreq + 1);
    forall x | x in moved.entries ensures c.minFreq + 1 <= moved.entries[x].freq {
      assert x in ListAt(moved.lists, moved.entries[x].freq);
    }
  }

  lemma HitStays<K, V>(c: Cache<K, V>, k: K, moved: Cache<K, V>)
    requires Indexed(c) && MinExact(c) && k in c.entries && moved == Move(c, k, c.entries[k].freq + 1)
    requires c.entries[k].freq == c.minFreq ==> ListAt(moved.lists, c.minFreq) != []
    ensures MinExact(moved.(minFreq := c.minFreq))
  {
    hide Move, NoDup, Indexed;
    MoveFacts(c, k, c.entries[k].freq + 1);
    MoveLists(c, k, c.entries[k].freq + 1, c.minFreq);
  }

  // A hit keeps the cached minimum exact: it moves up only when its list ran empty.
  lemma HitMin<K, V>(c: Cache<K, V>, k: K)
    requires Indexed(c) && MinExact(c) && k in c.entries
    ensures var r := Hit(c, k);
      MinExact(r) && c.minFreq <= r.minFreq <= c.minFreq + 1
  {
    hide Move, Indexed, MinExact;
    var f := c.entries[k].freq;
    var moved := Move(c, k, f + 1);
    MoveRest(c, k, f + 1);
    if f == c.minFreq && ListAt(moved.lists, f) == [] {
      HitRaises(c, k, moved);
    } else {
      HitStays(c, k, moved);
      assert moved.(minFreq := c.minFreq) == moved;
    }
  }

  lemma HitFields<K, V>(c: Cache<K, V>, k: K)
    requires k in c.entries
    ensures var r, m := Hit(c, k), Move(c, k, c.entries[k].freq + 1);
      && r.entries == m.entries && r.lists == m.lists
      && r.total == c.total && r.maxAverage == c.maxAverage && r.capacity == c.capacity
  {}

  lemma HitKeeps<K, V>(c: Cache<K, V>, k: K)
    requires Indexed(c) && Positive(c) && k in c.entries
    ensures var r := Hit(c, k);
      && Indexed(r) && Positive(r)
      && r.entries == c.entries[k := c.entries[k].(freq := c.entries[k].freq + 1)]
      && r.entries.Keys == c.entries.Keys
      && SumFreq(r.entries) == SumFreq(c.entries) + 1
  {
    hide Indexed, Positive, SumFreq, MinExact, Move, Hit;
    PositiveAt(c, k);
    var f := c.entries[k].freq;
    MovePositive(c, k, f + 1);
    MoveSum(c, k, f + 1);
    MoveFacts(c, k, f + 1);
    HitFields(c, k);
    SameIndex(Move(c, k, f + 1), Hit(c, k));
  }

  lemma MovePositive<K, V>(c: Cache<K, V>, k: K, f: int)
    requires Positive(c) && k in c.entries && f >= 1
    ensures Positive(Move(c, k, f))
  {}

  lemma PositiveAt<K, V>(c: Cache<K, V>, k: K)
    requires Positive(c) && k in c.entries
    ensures c.entries[k].freq >= 1
  {}

  lemma InsertLists<K, V>(c: Cache<K, V>, k: K, v: V, f: int)
    ensures ListAt(Insert(c, k, v).lists, f) == ListAt(c.lists, f) + if f == 1 then [k] else []
  {}

  lemma InsertKeeps<K, V>(c: Cache<K, V>, k: K, v: V)
    requires Indexed(c) && k !in c.entries
    ensures Indexed(Insert(c, k, v)) && (Positive(c) ==> Positive(Insert(c, k, v)))
  {
    var r := Insert(c, k, v);
    assert r.entries == c.entries[k := Entry(1, v)];
    hide Insert;
    forall f ensures NoDup(ListAt(r.lists, f)) {
      InsertLists(c, k, v, f);
      assert NoDup(ListAt(c.lists, f));
      assert k !in ListAt(c.lists, f);
      if f == 1 { AppendNoDup(ListAt(c.lists, f), k); } else { assert ListAt(c.lists, f) + [] == ListAt(c.lists, f); }
    }
    forall x | x in r.entries ensures x in ListAt(r.lists, r.entries[x].freq) {
      InsertLists(c, k, v, r.entries[x].freq);
      if x != k { assert x in ListAt(c.lists, c.entries[x].freq); }
    }
    forall f, x | x in ListAt(r.lists, f) ensures x in r.entries && r.entries[x].freq == f {
      InsertLists(c, k, v, f);
      assert x in ListAt(c.lists, f) || x == k;
    }
  }

  lemma InsertSum<K, V>(c: Cache<K, V>, k: K, v: V)
    requires k !in c.entries
    ensures var r := Insert(c, k, v);
      && r.entries == c.entries[k := Entry(1, v)]
      && SumFreq(r.entries) == SumFreq(c.entries) + 1
      && |r.entries| == |c.entries| + 1
  {
    SumUpdate(c.entries, k, Entry(1, v));
  }

  lemma KickOutLists<K, V>(c: Cache<K, V>, g: int)
    requires ListAt(c.lists, c.minFreq) != [] && Victim(c) in c.entries
    ensures ListAt(KickOut(c).lists, g) ==
      if g == c.entries[Victim(c)].freq then Without(ListAt(c.lists, g), Victim(c)) else ListAt(c.lists, g)
  {}

  lemma VictimAt<K, V>(c: Cache<K, V>)
    requires Indexed(c) && ListAt(c.lists, c.minFreq) != []
    ensures Victim(c) in c.entries && c.entries[Victim(c)].freq == c.minFreq
  {
    assert Victim(c) in ListAt(c.lists, c.minFreq);
  }

  lemma KickOutEntry<K, V>(c: Cache<K, V>, x: K)
    requires ListAt(c.lists, c.minFreq) != [] && Victim(c) in c.entries
    ensures x in KickOut(c).entries <==> x in c.entries && x != Victim(c)
    ensures x in KickOut(c).entries ==> KickOut(c).entries[x] == c.entries[x]
  {}

  lemma KickOutKeeps<K, V>(c: Cache<K, V>)
    requires Indexed(c) && ListAt(c.lists, c.minFreq) != []
    requires Victim(c) in c.entries && c.entries[Victim(c)].freq == c.minFreq
    ensures Indexed(KickOut(c)) && (Positive(c) ==> Positive(KickOut(c)))
  {
    hide KickOut, Victim, ListAt, Without, NoDup;
    var r := KickOut(c);
    var head := ListAt(c.lists, c.minFreq);
    assert NoDup(head);
    WithoutFacts(head, Victim(c));
    forall g ensures NoDup(ListAt(r.lists, g)) {
      KickOutLists(c, g);
      assert NoDup(ListAt(c.lists, g));
    }
    forall x | x in r.entries ensures x in c.entries && r.entries[x] == c.entries[x] && x in ListAt(r.lists, r.entries[x].freq) {
      KickOutEntry(c, x);
      KickOutLists(c, r.entries[x].freq);
      assert x in ListAt(c.lists, c.entries[x].freq);
    }
    forall g, x | x in ListAt(r.lists, g) ensures x in r.entries && r.entries[x].freq == g {
      KickOutEntry(c, x);
      KickOutLists(c, g);
      WithoutMembers(head, Victim(c), x);
      assert x in ListAt(c.lists, g);
    }
  }

  lemma KickOutSum<K, V>(c: Cache<K, V>)
    requires ListAt(c.lists, c.minFreq) != [] && Victim(c) in c.entries
    ensures var r := KickOut(c);
      && r.entries == c.entries - {Victim(c)} && r.entries.Keys == c.entries.Keys - {Victim(c)}
      && |r.entries| == |c.entries| - 1
      && r.total - SumFreq(r.entries) == c.total - SumFreq(c.entries)
  {
    SumRemove(c.entries, Victim(c));
  }

  lemma GetKeeps<K, V>(c: Cache<K, V>, k: K, order: seq<K>)
    requires Inv(c) && GoodAverage(c.maxAverage) && Enumerates(order, c.entries.Keys)
    ensures Inv(Get(c, k, order))
    ensures Get(c, k, order).entries.Keys == c.entries.Keys
  {
    hide Indexed, Positive, MinExact, SumFreq, Hit, Move, AddFreqNum, ListAt, Enumerates;
    if k in c.entries {
      HitKeeps(c, k);
      HitMin(c, k);
      HitFields(c, k);
      var h := Hit(c, k);
      var low := LowKey(h);
      AccessKeeps(h, order, low);
      AccessRest(h, order);
      assert |Get(c, k, order).entries.Keys| == |c.entries.Keys|;
    }
  }

  lemma LowKey<K, V>(c: Cache<K, V>) returns (low: K)
    requires Indexed(c) && MinExact(c)
    ensures low in c.entries && c.entries[low].freq == c.minFreq
  {
    low := ListAt(c.lists, c.minFreq)[0];
    assert low in ListAt(c.lists, c.minFreq);
  }

  lemma AccessRest<K, V>(c: Cache<K, V>, order: seq<K>)
    requires Enumerates(order, c.entries.Keys)
    ensures var r := AddFreqNum(c, order);
      r.total == c.total + 1 && r.maxAverage == c.maxAverage && r.capacity == c.capacity
  {}

  // In a good state an eviction always finds a node in the list it looks at.
  lemma AlwaysCanPut<K, V>(c: Cache<K, V>, k: K)
    requires Inv(c)
    ensures CanPut(c, k)
  {
    if c.capacity > 0 && Full(c, k) {
      assert Victim(c) in ListAt(c.lists, c.minFreq);
    }
  }

  ghost function WithValue<K, V>(c: Cache<K, V>, k: K, v: V): Cache<K, V>
    requires k in c.entries
  {
    c.(entries := c.entries[k := c.entries[k].(value := v)])
  }

  lemma WithValueKeeps<K, V>(c: Cache<K, V>, k: K, v: V)
    requires Inv(c) && k in c.entries
    ensures Inv(WithValue(c, k, v)) && WithValue(c, k, v).entries.Keys == c.entries.Keys
  {
    var s := WithValue(c, k, v);
    SumUpdate(c.entries, k, c.entries[k].(value := v));
    assert s.entries.Keys == c.entries.Keys;
    assert |s.entries.Keys| == |c.entries.Keys|;
  }

  lemma WithValueIndexed<K, V>(c: Cache<K, V>, k: K, v: V)
    requires Indexed(c) && k in c.entries
    ensures Indexed(WithValue(c, k, v)) && WithValue(c, k, v).entries.Keys == c.entries.Keys
  {}

  lemma PutHitKeeps<K, V>(c: Cache<K, V>, k: K, v: V, order: seq<K>)
    requires Inv(c) && GoodAverage(c.maxAverage) && k in c.entries
    requires Enumerates(order, c.entries.Keys)
    ensures Inv(AddFreqNum(Hit(WithValue(c, k, v), k), order))
  {
    hide Inv, Hit, AddFreqNum, Enumerates;
    WithValueKeeps(c, k, v);
    GetKeeps(WithValue(c, k, v), k, order);
  }

  lemma MakeRoomKeeps<K, V>(c: Cache<K, V>, k: K)
    requires Inv(c) && c.capacity > 0 && CanPut(c, k) && k !in c.entries
    ensures var r := MakeRoom(c, k);
      && Indexed(r) && Positive(r) && SumFreq(r.entries) <= r.total && r.minFreq >= 1
      && k !in r.entries && |r.entries| < r.capacity
      && r.maxAverage == c.maxAverage && r.capacity == c.capacity
  {
    hide Indexed, Positive, SumFreq, KickOut;
    if Full(c, k) {
      KickOutRest(c);
      VictimAt(c);
      KickOutKeeps(c);
      KickOutSum(c);
    }
  }

  lemma MakeRoomIndexed<K, V>(c: Cache<K, V>, k: K)
    requires Indexed(c) && c.capacity > 0 && CanPut(c, k) && k !in c.entries
    ensures Indexed(MakeRoom(c, k)) && k !in MakeRoom(c, k).entries
  {
    hide Indexed, KickOut;
    if Full(c, k) {
      VictimAt(c);
      KickOutKeeps(c);
      KickOutEntry(c, k);
    }
  }

  lemma HitIndexed<K, V>(c: Cache<K, V>, k: K)
    requires Indexed(c) && k in c.entries
    ensures Indexed(Hit(c, k)) && Hit(c, k).entries.Keys == c.entries.Keys
  {
    hide Indexed, Move, Hit;
    MoveFacts(c, k, c.entries[k].freq + 1);
    HitFields(c, k);
    SameLists(Move(c, k, c.entries[k].freq + 1), Hit(c, k));
  }

  // The partition of the keys into the lists does not depend on the limit.
  lemma AccessIndexed<K, V>(c: Cache<K, V>, order: seq<K>)
    requires Indexed(c) && Enumerates(order, c.entries.Keys)
    ensures Indexed(AddFreqNum(c, order))
  {
    hide Indexed, AgeAll, LeastOccupied, NoDup;
    var n := Counted(c);
    SameLists(c, n);
    AgeAllFacts(n, order);
    if n.entries != map[] {
      SameLists(AgeAll(n, order), HandleOver(n, order));
    }
  }

  lemma GetIndexed<K, V>(c: Cache<K, V>, k: K, order: seq<K>)
    requires Indexed(c) && Enumerates(order, c.entries.Keys)
    ensures Indexed(Get(c, k, order))
  {
    hide Indexed, Hit, AddFreqNum, Enumerates;
    if k in c.entries {
      HitIndexed(c, k);
      AccessIndexed(Hit(c, k), order);
    }
  }

  lemma PutIndexed<K, V>(c: Cache<K, V>, k: K, v: V, order: seq<K>)
    requires Indexed(c) && CanPut(c, k) && Enumerates(order, KeysOnPut(c, k))
    ensures Indexed(Put(c, k, v, order))
  {
    hide Indexed, Hit, AddFreqNum, Enumerates, MakeRoom, Insert, CanPut, SumFreq;
    if c.capacity > 0 {
      if k in c.entries {
        MakeRoomSame(c, k);
        assert KeysOnPut(c, k) == c.entries.Keys;
        WithValueIndexed(c, k, v);
        GetIndexed(WithValue(c, k, v), k, order);
      } else {
        MakeRoomIndexed(c, k);
        PutNewIndexed(MakeRoom(c, k), k, v, order);
      }
    }
  }

  lemma PutNewIndexed<K, V>(room: Cache<K, V>, k: K, v: V, order: seq<K>)
    requires Indexed(room) && k !in room.entries && Enumerates(order, room.entries.Keys + {k})
    ensures var r := AddFreqNum(Insert(room, k, v), order);
      Indexed(r.(minFreq := if r.minFreq < 1 then r.minFreq else 1))
  {
    hide Indexed, AddFreqNum, Enumerates, Insert, SumFreq;
    InsertKeeps(room, k, v);
    InsertSum(room, k, v);
    var n := Insert(room, k, v);
    assert n.entries.Keys == room.entries.Keys + {k};
    AccessIndexed(n, order);
    var r := AddFreqNum(n, order);
    SameLists(r, r.(minFreq := if r.minFreq < 1 then r.minFreq else 1));
  }

  // A key just inserted still has frequency 1 after its own access is counted.
  lemma FreshStaysOne<K, V>(n: Cache<K, V>, k: K, order: seq<K>)
    requires Indexed(n) && n.maxAverage >= 0 && Enumerates(order, n.entries.Keys)
    requires k in n.entries && n.entries[k].freq == 1
    ensures var r := AddFreqNum(n, order); k in r.entries && r.entries[k].freq == 1
  {
    hide Indexed, AgeAll, ListAt, LeastOccupied, NoDup;
    var m := Counted(n);
    if m.average > m.maxAverage {
      SameLists(n, m);
      AgeAllFacts(m, order);
      assert AgedEntry(m, AgeAll(m, order), order, k);
    }
  }

  lemma SameLists<K, V>(c: Cache<K, V>, r: Cache<K, V>)
    requires Indexed(c) && c.entries == r.entries && c.lists == r.lists
    ensures Indexed(r)
  {}

  lemma OneIsLeast<K, V>(r: Cache<K, V>, s: Cache<K, V>, k: K)
    requires Indexed(r) && Positive(r) && r.lists == s.lists && r.entries == s.entries && s.minFreq == 1
    requires k in r.entries && r.entries[k].freq == 1
    ensures MinExact(s)
  {
    assert k in ListAt(s.lists, 1);
  }

  lemma PutNewKeeps<K, V>(room: Cache<K, V>, k: K, v: V, order: seq<K>)
    requires Indexed(room) && Positive(room) && SumFreq(room.entries) <= room.total && room.minFreq >= 1
    requires k !in room.entries && |room.entries| < room.capacity
    requires GoodAverage(room.maxAverage) && Enumerates(order, room.entries.Keys + {k})
    ensures var r := AddFreqNum(Insert(room, k, v), order);
      Inv(r.(minFreq := if r.minFreq < 1 then r.minFreq else 1))
  {
    hide Indexed, Positive, MinExact, SumFreq, AddFreqNum, Insert, ListAt;
    InsertKeeps(room, k, v);
    InsertSum(room, k, v);
    var n := Insert(room, k, v);
    assert n.entries.Keys == room.entries.Keys + {k};
    InsertRest(room, k, v);
    AccessKeeps(n, order, k);
    AccessRest(n, order);
    FreshStaysOne(n, k, order);
    var r := AddFreqNum(n, order);
    assert |r.entries.Keys| == |n.entries.Keys|;
    var s := r.(minFreq := if r.minFreq < 1 then r.minFreq else 1);
    SameIndex(r, s);
    OneIsLeast(r, s, k);
  }

  lemma InsertRest<K, V>(c: Cache<K, V>, k: K, v: V)
    ensures var r := Insert(c, k, v);
      r.total == c.total && r.minFreq == c.minFreq && r.maxAverage == c.maxAverage && r.capacity == c.capacity
  {}

  lemma PutKeeps<K, V>(c: Cache<K, V>, k: K, v: V, order: seq<K>)
    requires Inv(c) && GoodAverage(c.maxAverage)
    requires CanPut(c, k) && Enumerates(order, KeysOnPut(c, k))
    ensures Inv(Put(c, k, v, order))
  {
    hide Inv, Hit, MakeRoom, Insert, AddFreqNum;
    if c.capacity > 0 {
      if k in c.entries {
        MakeRoomSame(c, k);
        assert KeysOnPut(c, k) == c.entries.Keys;
        PutHitKeeps(c, k, v, order);
      } else {
        MakeRoomKeeps(c, k);
        PutNewKeeps(MakeRoom(c, k), k, v, order);
      }
    }
  }

  lemma MakeRoomSame<K, V>(c: Cache<K, V>, k: K)
    requires c.capacity > 0 && CanPut(c, k) && k in c.entries
    ensures MakeRoom(c, k) == c
  {}

  // ---------------------------------------------------------------- runs

  datatype Op<K, V> = GetOp(key: K, order: seq<K>) | PutOp(key: K, value: V, order: seq<K>) | PurgeOp

  ghost predicate Ready<K, V>(c: Cache<K, V>, op: Op<K, V>) {
    match op
    case GetOp(k, order) => Enumerates(order, c.entries.Keys)
    case PutOp(k, v, order) => CanPut(c, k) && Enumerates(order, KeysOnPut(c, k))
    case PurgeOp => true
  }

  ghost function Apply<K, V>(c: Cache<K, V>, op: Op<K, V>): Cache<K, V>
    requires Ready(c, op)
  {
    match op
    case GetOp(k, order) => Get(c, k, order)
    case PutOp(k, v, order) => Put(c, k, v, order)
    case PurgeOp => Purge(c)
  }

  // ops, applied one after the other, lead from c to r.
  ghost predicate Reaches<K, V>(c: Cache<K, V>, ops: seq<Op<K, V>>, r: Cache<K, V>)
    decreases |ops|
  {
    if ops == [] then r == c
    else Ready(c, ops[0]) && Reaches(Apply(c, ops[0]), ops[1..], r)
  }

  lemma PurgeKeeps<K, V>(c: Cache<K, V>)
    requires Inv(c)
    ensures Inv(Purge(c))
  {
    hide Indexed, Positive, MinExact;
    SumNonNegative(c);
    PurgeIndexed(c);
  }

  lemma PurgeIndexed<K, V>(c: Cache<K, V>)
    ensures Indexed(Purge(c)) && Positive(Purge(c))
  {}

  lemma SumNonNegative<K, V>(c: Cache<K, V>)
    requires Positive(c)
    ensures SumFreq(c.entries) >= 0
  {
    SumAtLeast(c.entries, 0);
  }

  lemma PutHitRest<K, V>(c: Cache<K, V>, k: K, v: V, order: seq<K>)
    requires k in c.entries && Enumerates(order, c.entries.Keys)
    ensures var r := AddFreqNum(Hit(WithValue(c, k, v), k), order);
      r.total == c.total + 1 && r.maxAverage == c.maxAverage && r.capacity == c.capacity
  {
    hide AddFreqNum, Enumerates, Hit, Move;
    var s := WithValue(c, k, v);
    assert s.entries.Keys == c.entries.Keys;
    HitFields(s, k);
    MoveKeys(s, k, s.entries[k].freq + 1);
    AccessRest(Hit(s, k), order);
  }

  lemma PutNewRest<K, V>(room: Cache<K, V>, k: K, v: V, order: seq<K>)
    requires k !in room.entries && Enumerates(order, room.entries.Keys + {k})
    ensures var r := AddFreqNum(Insert(room, k, v), order);
      r.total == room.total + 1 && r.maxAverage == room.maxAverage && r.capacity == room.capacity
  {
    hide AddFreqNum, Enumerates, Insert, SumFreq;
    InsertSum(room, k, v);
    InsertRest(room, k, v);
    assert Insert(room, k, v).entries.Keys == room.entries.Keys + {k};
    AccessRest(Insert(room, k, v), order);
  }

  lemma MakeRoomRest<K, V>(c: Cache<K, V>, k: K)
    requires c.capacity > 0 && CanPut(c, k)
    ensures var r := MakeRoom(c, k);
      && r.maxAverage == c.maxAverage && r.capacity == c.capacity
      && (k !in c.entries ==> k !in r.entries)
      && (Positive(c) ==> r.total <= c.total)
  {
    hide ListAt;
  }

  lemma PutRest<K, V>(c: Cache<K, V>, k: K, v: V, order: seq<K>)
    requires CanPut(c, k) && Enumerates(order, KeysOnPut(c, k))
    ensures var r := Put(c, k, v, order);
      && r.maxAverage == c.maxAverage && r.capacity == c.capacity
      && (Positive(c) ==> r.total <= c.total + 1)
  {
    hide AddFreqNum, Enumerates, Insert, MakeRoom, Hit, CanPut, Positive;
    if c.capacity > 0 {
      if k in c.entries {
        MakeRoomSame(c, k);
        assert KeysOnPut(c, k) == c.entries.Keys;
        PutHitRest(c, k, v, order);
      } else {
        MakeRoomRest(c, k);
        PutNewRest(MakeRoom(c, k), k, v, order);
      }
    }
  }

  lemma MoveRest<K, V>(c: Cache<K, V>, k: K, f: int)
    requires k in c.entries
    ensures var r := Move(c, k, f);
      r.total == c.total && r.minFreq == c.minFreq && r.maxAverage == c.maxAverage && r.capacity == c.capacity
  {}

  lemma MoveKeys<K, V>(c: Cache<K, V>, k: K, f: int)
    requires k in c.entries
    ensures Move(c, k, f).entries.Keys == c.entries.Keys
  {}

  lemma KickOutRest<K, V>(c: Cache<K, V>)
    requires ListAt(c.lists, c.minFreq) != [] && Victim(c) in c.entries
    ensures var r := KickOut(c);
      r.minFreq == c.minFreq && r.maxAverage == c.maxAverage && r.capacity == c.capacity
  {}

  lemma ApplyRest<K, V>(c: Cache<K, V>, op: Op<K, V>)
    requires Ready(c, op)
    ensures Apply(c, op).maxAverage == c.maxAverage && Apply(c, op).capacity == c.capacity
  {
    hide Get, Put, Purge, Enumerates, CanPut, KeysOnPut;
    match op
    case GetOp(k, order) => GetRest(c, k, order);
    case PutOp(k, v, order) => PutRest(c, k, v, order);
    case PurgeOp => PurgeRest(c);
  }

  lemma ApplyKeeps<K, V>(c: Cache<K, V>, op: Op<K, V>)
    requires Inv(c) && GoodAverage(c.maxAverage) && Ready(c, op)
    ensures Inv(Apply(c, op))
    ensures Apply(c, op).maxAverage == c.maxAverage && Apply(c, op).capacity == c.capacity
  {
    hide Inv, Get, Put, Purge, Enumerates, CanPut, KeysOnPut;
    ApplyRest(c, op);
    match op
    case GetOp(k, order) => GetKeeps(c, k, order);
    case PutOp(k, v, order) => PutKeeps(c, k, v, order);
    case PurgeOp => PurgeKeeps(c);
  }

  lemma PurgeRest<K, V>(c: Cache<K, V>)
    ensures Purge(c).maxAverage == c.maxAverage && Purge(c).capacity == c.capacity
  {}

  lemma GetRest<K, V>(c: Cache<K, V>, k: K, order: seq<K>)
    requires Enumerates(order, c.entries.Keys)
    ensures var r := Get(c, k, order); r.maxAverage == c.maxAverage && r.capacity == c.capacity
  {
    hide AddFreqNum, NoDup, Hit;
    if k in c.entries {
      HitFields(c, k);
      MoveKeys(c, k, c.entries[k].freq + 1);
      AccessRest(Hit(c, k), order);
    }
  }

  lemma {:induction false} RunKeeps<K, V>(c: Cache<K, V>, ops: seq<Op<K, V>>, r: Cache<K, V>)
    requires Inv(c) && GoodAverage(c.maxAverage) && Reaches(c, ops, r)
    ensures Inv(r)
    decreases |ops|
  {
    hide Inv, Ready, Apply;
    if ops != [] {
      ApplyKeeps(c, ops[0]);
      RunKeeps(Apply(c, ops[0]), ops[1..], r);
    }
  }

  lemma InitInv<K, V>(capacity: nat, maxAverage: int)
    ensures Inv<K, V>(Init(capacity, maxAverage))
  {
    var c := Init<K, V>(capacity, maxAverage);
    assert Indexed(c) && Positive(c);
    assert SumFreq(c.entries) == 0;
    hide Indexed, Positive, SumFreq;
  }

  // Every reachable state: partition, bounded size, exact minimum, safe eviction.
  lemma ReachableInv<K, V>(capacity: nat, maxAverage: int, ops: seq<Op<K, V>>, r: Cache<K, V>, k: K)
    requires GoodAverage(maxAverage) && Reaches(Init(capacity, maxAverage), ops, r)
    ensures Inv(r)
    ensures CanPut(r, k)
  {
    hide Inv, Reaches, CanPut;
    InitInv<K, V>(capacity, maxAverage);
    RunKeeps(Init(capacity, maxAverage), ops, r);
    AlwaysCanPut(r, k);
  }
}
