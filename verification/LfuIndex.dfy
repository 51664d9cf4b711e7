/**
 KLfuCache as a value: the key map, one key sequence per frequency, the cached
 least frequency and the running total of accesses (include/memory/LFU.h).

 A frequency list is the sequence of its keys, head first; LfuCache.dfy proves
 that the doubly linked lists implement exactly these sequences. The order in
 which an ageing pass visits the unordered map is a parameter, so every result
 holds for every iteration order.
 */
module LfuIndex {

  // The initial and sentinel value of the cached least frequency.
  const INT8_MAX := 127

  datatype Entry<V> = Entry(freq: int, value: V)

  datatype Cache<K, V> = Cache(
    capacity: nat,
    maxAverage: int,
    minFreq: int,
    average: int,
    total: int,
    entries: map<K, Entry<V>>,
    lists: map<int, seq<K>>)

  ghost function Init<K, V>(capacity: nat, maxAverage: int): Cache<K, V> {
    Cache(capacity, maxAverage, INT8_MAX, 0, 0, map[], map[])
  }

  // ---------------------------------------------------------------- operations

  // Integer division of the source language truncates toward zero.
  function Half(m: int): int {
    if m >= 0 then m / 2 else -((-m) / 2)
  }

  function Aged(freq: int, maxAverage: int): int {
    if freq - Half(maxAverage) < 1 then 1 else freq - Half(maxAverage)
  }

  ghost function ListAt<K>(lists: map<int, seq<K>>, f: int): seq<K> {
    if f in lists then lists[f] else []
  }

  ghost function Without<K>(s: seq<K>, k: K): seq<K> {
    if s == [] then [] else if s[0] == k then s[1..] else [s[0]] + Without(s[1..], k)
  }

  ghost function Detach<K, V>(c: Cache<K, V>, k: K): Cache<K, V>
    requires k in c.entries
  {
    var f := c.entries[k].freq;
    c.(lists := c.lists[f := Without(ListAt(c.lists, f), k)])
  }

  ghost function Attach<K, V>(c: Cache<K, V>, k: K): Cache<K, V>
    requires k in c.entries
  {
    var f := c.entries[k].freq;
    c.(lists := c.lists[f := ListAt(c.lists, f) + [k]])
  }

  ghost function SetFreq<K, V>(c: Cache<K, V>, k: K, f: int): Cache<K, V>
    requires k in c.entries
  {
    c.(entries := c.entries[k := c.entries[k].(freq := f)])
  }

  // Take k out of its list, give it frequency f, append it to the list of f.
  ghost function Move<K, V>(c: Cache<K, V>, k: K, f: int): Cache<K, V>
    requires k in c.entries
  {
    Attach(SetFreq(Detach(c, k), k, f), k)
  }

  // The part of getInternal before the totals are updated.
  ghost function Hit<K, V>(c: Cache<K, V>, k: K): Cache<K, V>
    requires k in c.entries
  {
    var f := c.entries[k].freq;
    var moved := Move(c, k, f + 1);
    if f == c.minFreq && ListAt(moved.lists, f) == [] then moved.(minFreq := f + 1) else moved
  }

  ghost function AgeAll<K, V>(c: Cache<K, V>, order: seq<K>): (r: Cache<K, V>)
    requires forall k :: k in order ==> k in c.entries
    ensures r.entries.Keys == c.entries.Keys
    ensures r == c.(entries := r.entries, lists := r.lists)
    decreases |order|
  {
    if order == [] then c
    else AgeAll(Move(c, order[0], Aged(c.entries[order[0]].freq, c.maxAverage)), order[1..])
  }

  ghost function Choose<T>(s: set<T>): (x: T)
    requires s != {}
    ensures x in s
  {
    var x :| x in s;
    x
  }

  ghost function MinOf(s: set<int>): (m: int)
    requires s != {}
    ensures m in s
    ensures forall x :: x in s ==> m <= x
  {
    var x := Choose(s);
    var rest := s - {x};
    if rest == {} then assert s == {x}; x
    else
      var m := MinOf(rest);
      assert s == rest + {x};
      if m < x then m else x
  }

  ghost function Occupied<K>(lists: map<int, seq<K>>): set<int> {
    set f | f in lists && lists[f] != []
  }

  // updateMinFreq: the least occupied frequency below INT8_MAX, else 1.
  ghost function LeastOccupied<K>(lists: map<int, seq<K>>): int {
    var s := set f | f in Occupied(lists) && f < INT8_MAX;
    if s == {} then 1 else MinOf(s)
  }

  ghost predicate Enumerates<K>(order: seq<K>, keys: set<K>) {
    && (forall k :: k in order ==> k in keys)
    && (forall k :: k in keys ==> k in order)
    && NoDup(order)
  }

  ghost predicate NoDup<K>(s: seq<K>) {
    s == [] || (s[0] !in s[1..] && NoDup(s[1..]))
  }

  ghost function HandleOver<K, V>(c: Cache<K, V>, order: seq<K>): Cache<K, V>
    requires Enumerates(order, c.entries.Keys)
  {
    if c.entries == map[] then c
    else
      var aged := AgeAll(c, order);
      aged.(minFreq := LeastOccupied(aged.lists))
  }

  ghost function Counted<K, V>(c: Cache<K, V>): Cache<K, V> {
    c.(total := c.total + 1,
       average := if c.entries == map[] then 0 else (c.total + 1) / |c.entries|)
  }

  ghost function AddFreqNum<K, V>(c: Cache<K, V>, order: seq<K>): Cache<K, V>
    requires Enumerates(order, c.entries.Keys)
  {
    var n := Counted(c);
    if n.average > n.maxAverage then HandleOver(n, order) else n
  }

  ghost function Victim<K, V>(c: Cache<K, V>): K
    requires ListAt(c.lists, c.minFreq) != []
  {
    c.lists[c.minFreq][0]
  }

  ghost function KickOut<K, V>(c: Cache<K, V>): Cache<K, V>
    requires ListAt(c.lists, c.minFreq) != [] && Victim(c) in c.entries
  {
    var k := Victim(c);
    var d := Detach(c, k);
    var entries := c.entries - {k};
    var total := c.total - c.entries[k].freq;
    d.(entries := entries, total := total,
       average := if entries == map[] then 0 else total / |entries|)
  }

  ghost function Insert<K, V>(c: Cache<K, V>, k: K, v: V): Cache<K, V> {
    Attach(c.(entries := c.entries[k := Entry(1, v)]), k)
  }

  ghost predicate Full<K, V>(c: Cache<K, V>, k: K) {
    k !in c.entries && |c.entries| == c.capacity
  }

  // What put needs of the index when it has to evict: a node at the cached minimum.
  ghost predicate CanPut<K, V>(c: Cache<K, V>, k: K) {
    c.capacity > 0 && Full(c, k) ==>
      ListAt(c.lists, c.minFreq) != [] && Victim(c) in c.entries
  }

  ghost function MakeRoom<K, V>(c: Cache<K, V>, k: K): Cache<K, V>
    requires c.capacity > 0 && CanPut(c, k)
  {
    if Full(c, k) then KickOut(c) else c
  }

  // The keys an ageing pass would visit.
  ghost function KeysOnPut<K, V>(c: Cache<K, V>, k: K): set<K>
    requires CanPut(c, k)
  {
    if c.capacity == 0 then c.entries.Keys else MakeRoom(c, k).entries.Keys + {k}
  }

  ghost function Get<K, V>(c: Cache<K, V>, k: K, order: seq<K>): Cache<K, V>
    requires Enumerates(order, c.entries.Keys)
  {
    if k in c.entries then AddFreqNum(Hit(c, k), order) else c
  }

  ghost function Put<K, V>(c: Cache<K, V>, k: K, v: V, order: seq<K>): Cache<K, V>
    requires CanPut(c, k) && Enumerates(order, KeysOnPut(c, k))
  {
    if c.capacity == 0 then c
    else if k in c.entries then
      AddFreqNum(Hit(c.(entries := c.entries[k := c.entries[k].(value := v)]), k), order)
    else
      var r := AddFreqNum(Insert(MakeRoom(c, k), k, v), order);
      r.(minFreq := if r.minFreq < 1 then r.minFreq else 1)
  }

  ghost function Purge<K, V>(c: Cache<K, V>): Cache<K, V> {
    c.(entries := map[], lists := map[])
  }

  // ---------------------------------------------------------------- invariant

  // The lists partition the keys: each key once, in the list of its own frequency.
  ghost predicate Indexed<K, V>(c: Cache<K, V>) {
    && (forall k :: k in c.entries ==> k in ListAt(c.lists, c.entries[k].freq))
    && (forall f, k :: k in ListAt(c.lists, f) ==> k in c.entries && c.entries[k].freq == f)
    && (forall f :: NoDup(ListAt(c.lists, f)))
  }

  ghost predicate Positive<K, V>(c: Cache<K, V>) {
    forall k :: k in c.entries ==> c.entries[k].freq >= 1
  }

  ghost function SumFreq<K, V>(m: map<K, Entry<V>>): int
    decreases |m|
  {
    if m == map[] then 0
    else
      var k :| k in m;
      m[k].freq + SumFreq(m - {k})
  }

  // The cached minimum is the least frequency of any key, and a key has it.
  ghost predicate MinExact<K, V>(c: Cache<K, V>) {
    && ListAt(c.lists, c.minFreq) != []
    && forall k :: k in c.entries ==> c.minFreq <= c.entries[k].freq
  }

  ghost predicate Inv<K, V>(c: Cache<K, V>) {
    && Indexed(c) && Positive(c)
    && |c.entries| <= c.capacity
    && SumFreq(c.entries) <= c.total
    && c.minFreq >= 1
    && (c.entries != map[] ==> MinExact(c) && c.minFreq <= c.maxAverage)
  }

  // The values of maxAverageNum for which the cached minimum stays exact.
  predicate GoodAverage(m: int) { 2 <= m <= 250 }

  // ---------------------------------------------------------------- sequences and sums

  lemma {:induction false} WithoutMembers<K>(s: seq<K>, k: K, x: K)
    requires NoDup(s)
    ensures x in Without(s, k) <==> x in s && x != k
  {
    if s != [] {
      WithoutMembers(s[1..], k, x);
      assert s == [s[0]] + s[1..];
    }
  }

  lemma {:induction false} WithoutNoDup<K>(s: seq<K>, k: K)
    requires NoDup(s)
    ensures NoDup(Without(s, k))
  {
    if s != [] && s[0] != k {
      var w := Without(s[1..], k);
      WithoutNoDup(s[1..], k);
      WithoutMembers(s[1..], k, s[0]);
      assert ([s[0]] + w)[1..] == w;
    }
  }

  lemma {:induction false} AppendNoDup<K>(s: seq<K>, k: K)
    requires NoDup(s) && k !in s
    ensures NoDup(s + [k])
  {
    if s == [] {
      assert s + [k] == [k];
    } else {
      AppendNoDup(s[1..], k);
      assert s == [s[0]] + s[1..];
      assert (s + [k])[1..] == s[1..] + [k];
    }
  }

  lemma WithoutFacts<K>(s: seq<K>, k: K)
    requires NoDup(s)
    ensures NoDup(Without(s, k))
    ensures forall x :: x in Without(s, k) <==> x in s && x != k
  {
    WithoutNoDup(s, k);
    forall x ensures x in Without(s, k) <==> x in s && x != k {
      WithoutMembers(s, k, x);
    }
  }

  lemma {:induction false} SumRemove<K, V>(m: map<K, Entry<V>>, k: K)
    requires k in m
    ensures SumFreq(m) == m[k].freq + SumFreq(m - {k})
    decreases |m|
  {
    var k0 :| k0 in m && SumFreq(m) == m[k0].freq + SumFreq(m - {k0});
    if k0 != k {
      SumRemove(m - {k0}, k);
      SumRemove(m - {k}, k0);
      assert m - {k0} - {k} == m - {k} - {k0};
    }
  }

  lemma SumUpdate<K, V>(m: map<K, Entry<V>>, k: K, e: Entry<V>)
    ensures SumFreq(m[k := e]) == e.freq + SumFreq(m) - (if k in m then m[k].freq else 0)
  {
    SumRemove(m[k := e], k);
    if k in m {
      SumRemove(m, k);
      assert m[k := e] - {k} == m - {k};
    } else {
      assert m[k := e] - {k} == m;
    }
  }

  lemma MulSucc(n: nat, x: int)
    ensures (n + 1) * x == n * x + x
  {}

  lemma {:induction false} SumAtLeast<K, V>(m: map<K, Entry<V>>, lo: int)
    requires forall k :: k in m ==> m[k].freq >= lo
    ensures |m| * lo <= SumFreq(m)
    decreases |m|
  {
    if m != map[] {
      var k :| k in m && SumFreq(m) == m[k].freq + SumFreq(m - {k});
      var rest := m - {k};
      assert |rest| == |m| - 1;
      SumAtLeast(rest, lo);
      MulSucc(|rest|, lo);
    }
  }

  // ---------------------------------------------------------------- moving one key

  // Where every list stands after a move.
  lemma MoveLists<K, V>(c: Cache<K, V>, k: K, f: int, g: int)
    requires k in c.entries
    ensures ListAt(Move(c, k, f).lists, g) ==
      (if g == c.entries[k].freq then Without(ListAt(c.lists, g), k) else ListAt(c.lists, g))
        + if g == f then [k] else []
  {}

  lemma MoveFacts<K, V>(c: Cache<K, V>, k: K, f: int)
    requires Indexed(c) && k in c.entries
    ensures var r := Move(c, k, f);
      && Indexed(r)
      && r.entries == c.entries[k := c.entries[k].(freq := f)]
      && r.entries.Keys == c.entries.Keys
      && k in ListAt(r.lists, f)
  {
    var r := Move(c, k, f);
    var was := c.entries[k].freq;
    WithoutFacts(ListAt(c.lists, was), k);
    MoveLists(c, k, f, f);
    forall g ensures NoDup(ListAt(r.lists, g)) {
      MoveLists(c, k, f, g);
      assert NoDup(ListAt(c.lists, g));
      var kept := if g == was then Without(ListAt(c.lists, g), k) else ListAt(c.lists, g);
      assert k !in kept;
      if g == f { AppendNoDup(kept, k); } else { assert kept + [] == kept; }
    }
    forall x | x in r.entries ensures x in ListAt(r.lists, r.entries[x].freq) {
      MoveLists(c, k, f, r.entries[x].freq);
      assert x in ListAt(c.lists, c.entries[x].freq);
    }
    forall g, x | x in ListAt(r.lists, g) ensures x in r.entries && r.entries[x].freq == g {
      MoveLists(c, k, f, g);
      assert x != k ==> x in ListAt(c.lists, g);
    }
  }

  lemma MoveSum<K, V>(c: Cache<K, V>, k: K, f: int)
    requires k in c.entries
    ensures SumFreq(Move(c, k, f).entries) == SumFreq(c.entries) - c.entries[k].freq + f
  {
    SumUpdate(c.entries, k, c.entries[k].(freq := f));
  }

  ghost predicate AgedEntry<K, V>(c: Cache<K, V>, r: Cache<K, V>, order: seq<K>, k: K)
    requires k in c.entries && k in r.entries
  {
    r.entries[k] == c.entries[k].(freq :=
      if k in order then Aged(c.entries[k].freq, c.maxAverage) else c.entries[k].freq)
  }

  // A whole ageing pass, in any order: every visited key ages once, nothing else changes.
  lemma {:induction false} AgeAllFacts<K, V>(c: Cache<K, V>, order: seq<K>)
    requires Indexed(c) && NoDup(order)
    requires forall k :: k in order ==> k in c.entries
    ensures Indexed(AgeAll(c, order))
    ensures forall k :: k in c.entries ==> AgedEntry(c, AgeAll(c, order), order, k)
    decreases |order|
  {
    if order != [] {
      var k0, rest := order[0], order[1..];
      var f := Aged(c.entries[k0].freq, c.maxAverage);
      MoveFacts(c, k0, f);
      var next := Move(c, k0, f);
      assert next.maxAverage == c.maxAverage;
      hide Indexed, Move;
      assert order == [k0] + rest;
      AgeAllFacts(next, rest);
      forall k | k in c.entries ensures AgedEntry(c, AgeAll(c, order), order, k) {
        assert AgedEntry(next, AgeAll(next, rest), rest, k);
        assert k in order <==> k == k0 || k in rest;
      }
    }
  }

  lemma {:induction false} AgeAllSum<K, V>(c: Cache<K, V>, order: seq<K>)
    requires Positive(c) && c.maxAverage >= 0
    requires forall k :: k in order ==> k in c.entries
    ensures Positive(AgeAll(c, order))
    ensures SumFreq(AgeAll(c, order).entries) <= SumFreq(c.entries)
    decreases |order|
  {
    if order != [] {
      var k := order[0];
      var f := Aged(c.entries[k].freq, c.maxAverage);
      MoveSum(c, k, f);
      AgeAllSum(Move(c, k, f), order[1..]);
    }
  }

  // After a pass, updateMinFreq finds the true minimum as long as some key ends below the cap.
  lemma LeastOccupiedExact<K, V>(c: Cache<K, V>, low: K)
    requires Indexed(c) && low in c.entries && c.entries[low].freq < INT8_MAX
    ensures MinExact(c.(minFreq := LeastOccupied(c.lists)))
    ensures LeastOccupied(c.lists) <= c.entries[low].freq
  {
    var s := set f | f in Occupied(c.lists) && f < INT8_MAX;
    assert low in ListAt(c.lists, c.entries[low].freq);
    assert c.entries[low].freq in s;
    var m := LeastOccupied(c.lists);
    assert m in s && m < INT8_MAX;
    forall k | k in c.entries ensures m <= c.entries[k].freq {
      assert k in ListAt(c.lists, c.entries[k].freq);
      assert c.entries[k].freq in Occupied(c.lists);
      assert c.entries[k].freq < INT8_MAX ==> c.entries[k].freq in s;
    }
  }
}
