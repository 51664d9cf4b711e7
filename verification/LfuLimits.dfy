/**
 For which values of maxAverageNum the cached minimum of KLfuCache is exact in
 every run, and how far its counters can grow.
 */
module LfuLimits {
  import opened LfuIndex
  import opened LfuProperties

  // In every state a run can reach, the cached minimum is the least frequency of a key.
  ghost predicate AlwaysExact<K(!new), V(!new)>(capacity: nat, maxAverage: int) {
    forall ops: seq<Op<K, V>>, r: Cache<K, V> ::
      Reaches(Init(capacity, maxAverage), ops, r) && r.entries != map[] ==> MinExact(r)
  }

  // The limit decides alone: exact for 2..250, and for every other limit one key suffices to break it.
  lemma ExactIff<K(!new), V(!new)>(capacity: nat, maxAverage: int, k: K, v: V)
    requires capacity >= 1
    ensures AlwaysExact<K, V>(capacity, maxAverage) <==> GoodAverage(maxAverage)
  {
    hide Reaches, MinExact, Inv, Init, Solo;
    if GoodAverage(maxAverage) {
      forall ops: seq<Op<K, V>>, r: Cache<K, V> | Reaches(Init(capacity, maxAverage), ops, r) && r.entries != map[]
        ensures MinExact(r)
      {
        ReachableInv(capacity, maxAverage, ops, r, k);
        InvExact(r);
      }
    } else {
      var ops, r := Breaks(capacity, maxAverage, k, v);
      assert Reaches(Init(capacity, maxAverage), ops, r) && r.entries != map[] && !MinExact(r);
    }
  }

  lemma InvExact<K, V>(r: Cache<K, V>)
    requires Inv(r) && r.entries != map[]
    ensures MinExact(r)
  {}

  // One cached key whose frequency has kept up with the access count.
  ghost predicate Solo<K, V>(c: Cache<K, V>, k: K) {
    c.entries.Keys == {k} && Indexed(c) && c.entries[k].freq >= c.total >= 0
  }

  lemma {:induction false} ReachesAppend<K, V>(c: Cache<K, V>, ops: seq<Op<K, V>>, r: Cache<K, V>, op: Op<K, V>)
    requires Reaches(c, ops, r) && Ready(r, op)
    ensures Reaches(c, ops + [op], Apply(r, op))
    decreases |ops|
  {
    hide Ready, Apply;
    if ops == [] {
      assert ops + [op] == [op];
      assert Reaches(Apply(c, op), [], Apply(r, op));
    } else {
      ReachesAppend(Apply(c, ops[0]), ops[1..], r, op);
      assert (ops + [op])[1..] == ops[1..] + [op];
    }
  }

  lemma SoloAverage<K, V>(c: Cache<K, V>, k: K)
    requires c.entries.Keys == {k}
    ensures Counted(c).average == c.total + 1
  {
    assert |c.entries| == |c.entries.Keys|;
  }

  // The access count with one cached key: an ageing pass runs exactly when the count exceeds the limit.
  lemma SoloAccess<K, V>(c: Cache<K, V>, k: K)
    requires c.entries.Keys == {k} && Indexed(c) && c.total >= 0
    requires Enumerates([k], c.entries.Keys)
    ensures var r := AddFreqNum(c, [k]);
      && r.entries.Keys == {k} && Indexed(r) && r.total == c.total + 1
      && r.maxAverage == c.maxAverage && r.capacity == c.capacity
      && (c.total + 1 > c.maxAverage ==>
           r.minFreq == LeastOccupied(r.lists) && r.entries[k].freq == Aged(c.entries[k].freq, c.maxAverage))
      && (c.total + 1 <= c.maxAverage ==> r.entries == c.entries)
  {
    hide Indexed, LeastOccupied, ListAt;
    SoloAverage(c, k);
    var n := Counted(c);
    SameLists(c, n);
    if c.total + 1 > c.maxAverage {
      AgeAllFacts(n, [k]);
      assert AgedEntry(n, AgeAll(n, [k]), [k], k);
      SameLists(AgeAll(n, [k]), HandleOver(n, [k]));
    }
  }

  lemma SoloOrder<K>(k: K)
    ensures Enumerates([k], {k})
  {}

  lemma SoloGet<K, V>(c: Cache<K, V>, k: K)
    requires Solo(c, k)
    ensures Ready(c, GetOp(k, [k]))
    ensures var r := Apply(c, GetOp(k, [k]));
      && r.entries.Keys == {k} && Indexed(r) && r.total == c.total + 1
      && r.maxAverage == c.maxAverage && r.capacity == c.capacity
      && (c.total + 1 > c.maxAverage ==>
           r.minFreq == LeastOccupied(r.lists) && r.entries[k].freq == Aged(c.entries[k].freq + 1, c.maxAverage))
      && (c.total + 1 <= c.maxAverage ==> r.entries[k].freq == c.entries[k].freq + 1)
  {
    hide Indexed, LeastOccupied, ListAt, Hit, Move, AddFreqNum, Aged;
    SoloOrder(k);
    HitFields(c, k);
    MoveFacts(c, k, c.entries[k].freq + 1);
    SameLists(Move(c, k, c.entries[k].freq + 1), Hit(c, k));
    SoloAccess(Hit(c, k), k);
  }

  lemma SoloPut<K, V>(capacity: nat, maxAverage: int, k: K, v: V)
    requires capacity >= 1
    ensures Ready(Init<K, V>(capacity, maxAverage), PutOp(k, v, [k]))
    ensures var r := Apply(Init<K, V>(capacity, maxAverage), PutOp(k, v, [k]));
      Solo(r, k) && r.total == 1 && r.maxAverage == maxAverage
  {
    hide Indexed, LeastOccupied, ListAt, Insert, AddFreqNum;
    var c := Init<K, V>(capacity, maxAverage);
    SoloOrder(k);
    assert c.entries.Keys + {k} == {k};
    InitIndexed<K, V>(capacity, maxAverage);
    InsertKeeps(c, k, v);
    InsertSum(c, k, v);
    InsertRest(c, k, v);
    var n := Insert(c, k, v);
    SoloAccess(n, k);
    var r := AddFreqNum(n, [k]);
    SameLists(r, r.(minFreq := if r.minFreq < 1 then r.minFreq else 1));
  }

  lemma InitIndexed<K, V>(capacity: nat, maxAverage: int)
    ensures Indexed<K, V>(Init(capacity, maxAverage)) && Positive<K, V>(Init(capacity, maxAverage))
  {}

  // n accesses to one key: the count is n and the frequency is at least n.
  lemma {:induction false} SoloRun<K, V>(capacity: nat, maxAverage: int, k: K, v: V, n: nat)
    returns (ops: seq<Op<K, V>>, r: Cache<K, V>)
    requires capacity >= 1 && n >= 1 && (maxAverage <= 1 || n <= maxAverage)
    ensures Reaches(Init(capacity, maxAverage), ops, r)
    ensures Solo(r, k) && r.total == n && r.maxAverage == maxAverage
    decreases n
  {
    hide Reaches, Ready, Apply, Indexed, LeastOccupied;
    if n == 1 {
      SoloPut(capacity, maxAverage, k, v);
      var op := PutOp(k, v, [k]);
      r := Apply(Init<K, V>(capacity, maxAverage), op);
      EmptyRun(Init<K, V>(capacity, maxAverage));
      ReachesAppend(Init(capacity, maxAverage), [], Init(capacity, maxAverage), op);
      ops := [] + [op];
    } else {
      var ops0, r0 := SoloRun(capacity, maxAverage, k, v, n - 1);
      SoloGet(r0, k);
      var op := GetOp(k, [k]);
      ReachesAppend(Init(capacity, maxAverage), ops0, r0, op);
      ops, r := ops0 + [op], Apply(r0, op);
    }
  }

  lemma EmptyRun<K, V>(c: Cache<K, V>)
    ensures Reaches(c, [], c)
  {}

  lemma SoloOccupied<K, V>(r: Cache<K, V>, k: K, f: int)
    requires Indexed(r) && r.entries.Keys == {k}
    ensures ListAt(r.lists, f) != [] ==> f == r.entries[k].freq
  {
    if ListAt(r.lists, f) != [] {
      var x := ListAt(r.lists, f)[0];
      assert x in ListAt(r.lists, f);
      assert x in r.entries.Keys;
    }
  }

  // A frequency at or above the sentinel is invisible to updateMinFreq.
  lemma SentinelHides<K, V>(r: Cache<K, V>, k: K)
    requires Indexed(r) && r.entries.Keys == {k} && r.entries[k].freq >= INT8_MAX
    requires r.minFreq == LeastOccupied(r.lists)
    ensures !MinExact(r)
  {
    hide Indexed, ListAt;
    SoloOccupied(r, k, r.minFreq);
  }

  lemma Breaks<K, V>(capacity: nat, maxAverage: int, k: K, v: V) returns (ops: seq<Op<K, V>>, r: Cache<K, V>)
    requires capacity >= 1 && !GoodAverage(maxAverage)
    ensures Reaches(Init(capacity, maxAverage), ops, r)
    ensures r.entries != map[] && !MinExact(r)
  {
    hide Reaches, Ready, Apply, Indexed, LeastOccupied, MinExact;
    var n := if maxAverage <= 1 then 126 else maxAverage;
    var ops0, r0 := SoloRun(capacity, maxAverage, k, v, n);
    SoloGet(r0, k);
    var op := GetOp(k, [k]);
    ReachesAppend(Init(capacity, maxAverage), ops0, r0, op);
    ops, r := ops0 + [op], Apply(r0, op);
    SentinelHides(r, k);
    assert k in r.entries;
  }

  // ---------------------------------------------------------------- counters

  lemma {:induction false} TotalBound<K, V>(c: Cache<K, V>, ops: seq<Op<K, V>>, r: Cache<K, V>)
    requires Inv(c) && GoodAverage(c.maxAverage) && Reaches(c, ops, r)
    ensures r.total <= c.total + |ops|
    decreases |ops|
  {
    hide Inv, Ready, Apply;
    if ops != [] {
      ApplyKeeps(c, ops[0]);
      ApplyTotal(c, ops[0]);
      TotalBound(Apply(c, ops[0]), ops[1..], r);
    }
  }

  lemma ApplyTotal<K, V>(c: Cache<K, V>, op: Op<K, V>)
    requires Inv(c) && Ready(c, op)
    ensures Apply(c, op).total <= c.total + 1
  {
    hide Put, AddFreqNum, Enumerates, Hit, Move, CanPut, KeysOnPut, Indexed, Positive, SumFreq, MinExact;
    match op
    case GetOp(k, order) =>
      if k in c.entries {
        HitFields(c, k);
        MoveKeys(c, k, c.entries[k].freq + 1);
        AccessRest(Hit(c, k), order);
      }
    case PutOp(k, v, order) => PutRest(c, k, v, order);
    case PurgeOp =>
  }

  // No counter exceeds the number of operations, so none overflows an int before 2^31 of them.
  lemma CountersBounded<K, V>(capacity: nat, maxAverage: int, ops: seq<Op<K, V>>, r: Cache<K, V>, k: K)
    requires GoodAverage(maxAverage) && Reaches(Init(capacity, maxAverage), ops, r)
    ensures 0 <= r.total <= |ops|
    ensures k in r.entries ==> 1 <= r.entries[k].freq <= r.total
  {
    hide Reaches, SumFreq, Indexed, MinExact;
    InitInv<K, V>(capacity, maxAverage);
    TotalBound(Init(capacity, maxAverage), ops, r);
    ReachableInv(capacity, maxAverage, ops, r, k);
    SumNonNegative(r);
    if k in r.entries {
      SumRemove(r.entries, k);
      SumAtLeast(r.entries - {k}, 0);
    }
  }
}
