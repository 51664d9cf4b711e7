/**
 The cache of include/memory/LFU.h in place: nodes linked through pre and next
 between two sentinels per frequency, relinked by every access. Each method is
 proved to be the corresponding operation on the value model of LfuIndex.dfy.
 */
module LfuCache {
  import opened LfuIndex
  import opened LfuProperties

  datatype Option<T> = None | Some(value: T)

  datatype Role = Data | Head | Tail

  class Node<K, V> {
    const key: K
    var freq: int
    var value: V
    var pre: Node?<K, V>
    var next: Node?<K, V>
    // What the node is for, and, for a sentinel, whose.
    ghost const role: Role
    ghost const home: int

    constructor (key: K, value: V, ghost role: Role, ghost home: int)
      ensures this.key == key && this.value == value && freq == 1 && pre == null && next == null
      ensures this.role == role && this.home == home
    {
      this.key, this.value, freq, pre, next := key, value, 1, null, null;
      this.role, this.home := role, home;
    }
  }

  ghost function KeysOf<K, V>(nodes: seq<Node<K, V>>): (s: seq<K>)
    ensures |s| == |nodes|
    ensures forall i :: 0 <= i < |s| ==> s[i] == nodes[i].key
  {
    seq(|nodes|, i requires 0 <= i < |nodes| => nodes[i].key)
  }

  class FreqList<K, V> {
    const freq: int
    const head: Node<K, V>
    const tail: Node<K, V>
    // The linked nodes in order, sentinels included.
    ghost var chain: seq<Node<K, V>>

    ghost function Nodes(): seq<Node<K, V>>
      requires |chain| >= 2
      reads this
    {
      chain[1..|chain| - 1]
    }

    ghost function At(i: int): Node<K, V>
      requires 0 <= i < |chain|
      reads this
    {
      chain[i]
    }

    ghost predicate Linked()
      reads this, chain
    {
      && |chain| >= 2 && chain[0] == head && chain[|chain| - 1] == tail
      && head.role == Head && tail.role == Tail && head.home == freq == tail.home
      && (forall i :: 0 < i < |chain| - 1 ==> chain[i].role == Data)
      && (forall i, j :: 0 <= i < j < |chain| ==> chain[i] != chain[j])
      && (forall i :: 0 <= i < |chain| - 1 ==> chain[i].next == chain[i + 1])
      && (forall i :: 0 < i < |chain| ==> chain[i].pre == chain[i - 1])
    }

    constructor (n: int, key: K, value: V)
      ensures freq == n && Linked() && chain == [head, tail]
      ensures fresh(head) && fresh(tail)
    {
      freq := n;
      var h := new Node(key, value, Head, n);
      var t := new Node(key, value, Tail, n);
      h.next := t;
      t.pre := h;
      head, tail, chain := h, t, [h, t];
    }

    predicate IsEmpty()
      requires Linked()
      reads this, chain
      ensures IsEmpty() <==> Nodes() == []
    {
      assert chain[0].next == chain[1];
      head.next == tail
    }

    function GetFirstNode(): (first: Node<K, V>)
      requires Linked()
      reads this, chain
      ensures first == chain[1]
    {
      assert chain[0].next == chain[1];
      head.next
    }

    method AddNode(node: Node<K, V>)
      requires Linked() && node.role == Data && node !in chain
      modifies this`chain, node`pre, node`next, tail`pre, At(|chain| - 2)`next
      ensures Linked() && Nodes() == old(Nodes()) + [node]
      ensures chain == old(chain)[..|old(chain)| - 1] + [node, tail]
    {
      ghost var n := |chain|;
      assert tail.pre == chain[n - 2];
      node.pre := tail.pre;
      node.next := tail;
      tail.pre.next := node;
      tail.pre := node;
      chain := chain[..n - 1] + [node, tail];
    }

    method RemoveNode(node: Node<K, V>, ghost i: nat)
      requires Linked() && 0 < i < |chain| - 1 && chain[i] == node
      modifies this`chain, node`pre, node`next, At(i - 1)`next, At(i + 1)`pre
      ensures Linked() && chain == old(chain)[..i] + old(chain)[i + 1..]
      ensures node.pre == null && node.next == null
    {
      node.pre.next := node.next;
      node.next.pre := node.pre;
      node.pre := null;
      node.next := null;
      chain := chain[..i] + chain[i + 1..];
    }
  }

  // Dropping the first occurrence of k drops position i when k stands there first.
  lemma {:induction false} WithoutAt<K>(s: seq<K>, i: nat, k: K)
    requires i < |s| && s[i] == k && forall j :: 0 <= j < i ==> s[j] != k
    ensures Without(s, k) == s[..i] + s[i + 1..]
  {
    if i > 0 {
      WithoutAt(s[1..], i - 1, k);
      assert s[..i] + s[i + 1..] == [s[0]] + (s[1..][..i - 1] + s[1..][i..]);
    } else {
      assert s[..0] + s[1..] == s[1..];
    }
  }

  // Unlinking the node at i of a chain drops its key from the list.
  lemma KeysWithout<K, V>(chain: seq<Node<K, V>>, i: nat)
    requires 0 < i < |chain| - 1
    requires forall j :: 0 < j < i ==> chain[j].key != chain[i].key
    ensures var rest := chain[..i] + chain[i + 1..];
      KeysOf(rest[1..|rest| - 1]) == Without(KeysOf(chain[1..|chain| - 1]), chain[i].key)
  {
    var keys := KeysOf(chain[1..|chain| - 1]);
    WithoutAt(keys, i - 1, chain[i].key);
    var rest := chain[..i] + chain[i + 1..];
    var inner, left := chain[1..|chain| - 1], rest[1..|rest| - 1];
    assert left == inner[..i - 1] + inner[i..];
    assert KeysOf(left) == keys[..i - 1] + keys[i..];
  }

  lemma OneFewer<T>(s: set<T>, x: T)
    requires x in s
    ensures |s - {x}| < |s|
  {}

  ghost function WithList<K>(lists: map<int, seq<K>>, f: int): map<int, seq<K>> {
    if f in lists then lists else lists[f := []]
  }

  lemma WithListAppend<K>(lists: map<int, seq<K>>, f: int, k: K)
    ensures WithList(lists, f)[f := ListAt(WithList(lists, f), f) + [k]] == lists[f := ListAt(lists, f) + [k]]
  {}

  class KLfuCache<K(==), V> {
    const capacity: nat
    const maxAverageNum: int
    var minFreq: int
    var curAverageNum: int
    var curTotalNum: int
    var nodeMap: map<K, Node<K, V>>
    var freqToFreqList: map<int, FreqList<K, V>>
    ghost var allNodes: set<Node<K, V>>
    ghost var allLists: set<FreqList<K, V>>

    // The list of frequency f links nodes of the map that have that frequency.
    ghost predicate ListOk(f: int)
      requires f in freqToFreqList
      reads `nodeMap, `freqToFreqList, `allNodes, `allLists, freqToFreqList[f], freqToFreqList[f].chain
    {
      var l := freqToFreqList[f];
      && l.freq == f && l in allLists && l.Linked()
      && (forall i :: 0 <= i < |l.chain| ==> l.chain[i] in allNodes)
      && (forall i :: 0 < i < |l.chain| - 1 ==>
           var n := l.chain[i]; n.freq == f && n.key in nodeMap && nodeMap[n.key] == n)
    }

    ghost function ChainAt(f: int): seq<Node<K, V>>
      requires f in freqToFreqList
      reads `freqToFreqList, freqToFreqList[f]
    {
      freqToFreqList[f].chain
    }

    ghost predicate Valid()
      reads `nodeMap, `freqToFreqList, `allNodes, `allLists, allLists, allNodes
    {
      && (forall f :: f in freqToFreqList ==> freqToFreqList[f] in allLists)
      && (forall f, n :: f in freqToFreqList && n in ChainAt(f) ==> n in allNodes)
      && (forall f, g, n :: f in freqToFreqList && g in freqToFreqList && n in ChainAt(f) && n in ChainAt(g) ==> f == g)
      && (forall f :: f in freqToFreqList ==> ListOk(f))
      && (forall k :: k in nodeMap ==> nodeMap[k].key == k && nodeMap[k].role == Data && nodeMap[k] in allNodes)
    }

    ghost function Entries(): map<K, Entry<V>>
      requires Valid()
      reads `nodeMap, `freqToFreqList, `allNodes, `allLists, allLists, allNodes
    {
      map k | k in nodeMap :: Entry(nodeMap[k].freq, nodeMap[k].value)
    }

    ghost function Lists(): map<int, seq<K>>
      requires Valid()
      reads `nodeMap, `freqToFreqList, `allNodes, `allLists, allLists, allNodes
    {
      map f | f in freqToFreqList :: assert ListOk(f); KeysOf(freqToFreqList[f].Nodes())
    }

    ghost function Abs(): Cache<K, V>
      requires Valid()
      reads this, allLists, allNodes
    {
      Cache(capacity, maxAverageNum, minFreq, curAverageNum, curTotalNum, Entries(), Lists())
    }

    // node is linked into no list.
    ghost predicate Detached(node: Node<K, V>)
      requires Valid()
      reads `nodeMap, `freqToFreqList, `allNodes, `allLists, allLists, allNodes
    {
      forall f :: f in freqToFreqList ==> node !in ChainAt(f)
    }

    constructor (capacity: nat, maxAverageNum: int)
      ensures Valid() && Abs() == Init(capacity, maxAverageNum)
      ensures fresh(allNodes) && fresh(allLists)
    {
      this.capacity, this.maxAverageNum := capacity, maxAverageNum;
      minFreq, curAverageNum, curTotalNum := INT8_MAX, 0, 0;
      nodeMap, freqToFreqList := map[], map[];
      allNodes, allLists := {}, {};
    }

    // When only the list of node's frequency, the nodes it held and node itself are
    // relinked, the new state of that list decides whether the index is valid again.
    twostate lemma ValidAfter(node: Node<K, V>)
      requires old(Valid()) && node.freq in freqToFreqList && freqToFreqList == old(freqToFreqList) && nodeMap == old(nodeMap)
      requires node in allNodes && allNodes == old(allNodes) && allLists == old(allLists)
      requires forall n :: n in allNodes ==> n.freq == old(n.freq)
      requires forall l :: l in allLists && l != freqToFreqList[node.freq] ==> l.chain == old(l.chain)
      requires forall n :: n in allNodes && n != node && n !in old(ChainAt(node.freq)) ==> n.pre == old(n.pre) && n.next == old(n.next)
      requires old(Detached(node)) || node in old(ChainAt(node.freq))
      requires ListOk(node.freq) && forall n :: n in ChainAt(node.freq) ==> n == node || n in old(ChainAt(node.freq))
      ensures Valid()
      ensures forall g :: g in freqToFreqList && g != node.freq ==> ChainAt(g) == old(ChainAt(g))
    {
      forall g | g in freqToFreqList && g != node.freq ensures ListOk(g) && ChainAt(g) == old(ChainAt(g)) {
        assert old(ListOk(node.freq)) && old(ListOk(g));
        var l := freqToFreqList[g];
        forall n | n in old(ChainAt(g)) ensures n in allNodes && n.pre == old(n.pre) && n.next == old(n.next) {}
        assert forall i :: 0 <= i < |l.chain| ==> l.chain[i] in old(ChainAt(g));
      }
    }

    twostate lemma ListsAfter(f: int)
      requires old(Valid()) && Valid() && f in freqToFreqList && freqToFreqList == old(freqToFreqList)
      requires forall g :: g in freqToFreqList && g != f ==> ChainAt(g) == old(ChainAt(g))
      ensures ListOk(f) && Lists() == old(Lists())[f := KeysOf(freqToFreqList[f].Nodes())]
    {
      hide ListOk;
      forall g | g in freqToFreqList ensures ListOk(g) && old(ListOk(g)) {}
      var was, now := old(Lists()), Lists();
      forall g | g in freqToFreqList && g != f ensures now[g] == was[g] {
        assert ChainAt(g) == old(ChainAt(g));
      }
    }

    twostate lemma EntriesAfter()
      requires old(Valid()) && Valid() && nodeMap == old(nodeMap) && allNodes == old(allNodes)
      requires forall n :: n in allNodes ==> n.freq == old(n.freq) && n.value == old(n.value)
      ensures Entries() == old(Entries())
    {
      forall k | k in nodeMap ensures nodeMap[k] in allNodes {}
    }

    lemma ListFacts(f: int)
      requires Valid() && (f in freqToFreqList || f in Lists())
      ensures f in freqToFreqList && f in Lists() && ListOk(f) && freqToFreqList[f] in allLists && freqToFreqList[f].Linked()
      ensures forall i :: 0 <= i < |ChainAt(f)| ==> ChainAt(f)[i] in allNodes
    {}

    lemma ListsFacts(f: int)
      requires Valid() && f in Lists()
      ensures f in freqToFreqList
      ensures ListOk(f) && ListAt(Lists(), f) == KeysOf(freqToFreqList[f].Nodes())
      ensures ListAt(Lists(), f) == [] <==> freqToFreqList[f].Nodes() == []
    {}

    lemma Locate(node: Node<K, V>) returns (i: nat)
      requires Valid() && node.key in nodeMap && nodeMap[node.key] == node
      requires node.freq in freqToFreqList && node in ChainAt(node.freq)
      ensures var c := ChainAt(node.freq);
        0 < i < |c| - 1 && c[i] == node && forall j :: 0 < j < i ==> c[j].key != node.key
    {
      var c := ChainAt(node.freq);
      assert ListOk(node.freq);
      i :| 0 <= i < |c| && c[i] == node;
    }

    // Unlinking position at.1 of list at.0 leaves a list in order.
    twostate lemma ShrunkOk(at: (int, nat))
      requires old(Valid()) && at.0 in freqToFreqList && freqToFreqList == old(freqToFreqList) && nodeMap == old(nodeMap)
      requires allNodes == old(allNodes) && allLists == old(allLists)
      requires forall n :: n in allNodes ==> n.freq == old(n.freq)
      requires 0 < at.1 < |old(ChainAt(at.0))| - 1
      requires freqToFreqList[at.0].Linked()
      requires ChainAt(at.0) == old(ChainAt(at.0))[..at.1] + old(ChainAt(at.0))[at.1 + 1..]
      ensures ListOk(at.0) && forall n :: n in ChainAt(at.0) ==> n in old(ChainAt(at.0))
      ensures old(ChainAt(at.0))[at.1] !in ChainAt(at.0)
    {
      assert old(ListOk(at.0));
    }

    // What unlinking node at position at.1 of its list does to the index.
    twostate lemma Unlinked(at: (Node<K, V>, nat))
      requires old(Valid()) && at.0.freq in freqToFreqList && freqToFreqList == old(freqToFreqList) && nodeMap == old(nodeMap)
      requires at.0 in allNodes && allNodes == old(allNodes) && allLists == old(allLists)
      requires forall n :: n in allNodes ==> n.freq == old(n.freq) && n.value == old(n.value)
      requires forall l :: l in allLists && l != freqToFreqList[at.0.freq] ==> l.chain == old(l.chain)
      requires forall n :: n in allNodes && n != at.0 && n !in old(ChainAt(at.0.freq)) ==> n.pre == old(n.pre) && n.next == old(n.next)
      requires 0 < at.1 < |old(ChainAt(at.0.freq))| - 1 && old(ChainAt(at.0.freq))[at.1] == at.0
      requires forall j :: 0 < j < at.1 ==> old(ChainAt(at.0.freq))[j].key != at.0.key
      requires freqToFreqList[at.0.freq].Linked()
      requires ChainAt(at.0.freq) == old(ChainAt(at.0.freq))[..at.1] + old(ChainAt(at.0.freq))[at.1 + 1..]
      ensures Valid() && Detached(at.0)
      ensures Entries() == old(Entries())
      ensures Lists() == old(Lists())[at.0.freq := Without(ListAt(old(Lists()), at.0.freq), at.0.key)]
    {
      hide ListOk, Valid, Entries, Lists;
      var (node, i) := at;
      var f := node.freq;
      assert Valid() && (forall g :: g in freqToFreqList && g != f ==> ChainAt(g) == old(ChainAt(g))) && node !in ChainAt(f) by {
        ShrunkOk((f, i));
        ValidAfter(node);
      }
      assert Detached(node) by { DetachedAfter(node); }
      EntriesAfter();
      ListsAfter(f);
      KeysWithout(old(ChainAt(f)), i);
      OldList(f);
    }

    twostate lemma DetachedAfter(node: Node<K, V>)
      requires old(Valid()) && Valid() && node.freq in freqToFreqList && freqToFreqList == old(freqToFreqList)
      requires node.freq == old(node.freq) && node in old(ChainAt(node.freq)) && node !in ChainAt(node.freq)
      requires forall g :: g in freqToFreqList && g != node.freq ==> ChainAt(g) == old(ChainAt(g))
      ensures Detached(node)
    {}

    twostate lemma OldList(f: int)
      requires old(Valid()) && f in old(freqToFreqList)
      ensures |old(ChainAt(f))| >= 2
      ensures ListAt(old(Lists()), f) == KeysOf(old(ChainAt(f))[1..|old(ChainAt(f))| - 1])
    {
      assert old(ListOk(f));
    }

    method RemoveFromFreqList(node: Node<K, V>)
      requires Valid() && node.key in nodeMap && nodeMap[node.key] == node
      requires node.freq in freqToFreqList && node in ChainAt(node.freq)
      modifies allLists`chain, allNodes`pre, allNodes`next
      ensures Valid() && Abs() == Detach(old(Abs()), node.key)
      ensures Detached(node)
    {
      hide ListOk, Valid, Entries, Lists;
      EntryOf(node);
      var f := node.freq;
      var l := freqToFreqList[f];
      ListFacts(f);
      ghost var i := Locate(node);
      l.RemoveNode(node, i);
      Unlinked((node, i));
    }

    // What linking node at the end of its list does to the index.
    twostate lemma Linked(node: Node<K, V>)
      requires old(Valid()) && node.freq in freqToFreqList && freqToFreqList == old(freqToFreqList) && nodeMap == old(nodeMap)
      requires node in allNodes && allNodes == old(allNodes) && allLists == old(allLists)
      requires node.key in nodeMap && nodeMap[node.key] == node && old(Detached(node))
      requires forall n :: n in allNodes ==> n.freq == old(n.freq) && n.value == old(n.value)
      requires forall l :: l in allLists && l != freqToFreqList[node.freq] ==> l.chain == old(l.chain)
      requires forall n :: n in allNodes && n != node && n !in old(ChainAt(node.freq)) ==> n.pre == old(n.pre) && n.next == old(n.next)
      requires freqToFreqList[node.freq].Linked() && |old(ChainAt(node.freq))| >= 2
      requires ChainAt(node.freq) == old(ChainAt(node.freq))[..|old(ChainAt(node.freq))| - 1] + [node, freqToFreqList[node.freq].tail]
      ensures Valid()
      ensures Entries() == old(Entries())
      ensures Lists() == old(Lists())[node.freq := ListAt(old(Lists()), node.freq) + [node.key]]
    {
      hide ListOk, Valid;
      var f := node.freq;
      assert Valid() && (forall g :: g in freqToFreqList && g != f ==> ChainAt(g) == old(ChainAt(g))) by {
        GrownOk(node);
        ValidAfter(node);
      }
      EntriesAfter();
      ListsAfter(f);
      OldList(f);
      assert KeysOf(freqToFreqList[f].Nodes()) == ListAt(old(Lists()), f) + [node.key];
    }

    twostate lemma GrownOk(node: Node<K, V>)
      requires old(Valid()) && node.freq in freqToFreqList && freqToFreqList == old(freqToFreqList) && nodeMap == old(nodeMap)
      requires node in allNodes && allNodes == old(allNodes) && allLists == old(allLists)
      requires node.key in nodeMap && nodeMap[node.key] == node
      requires forall n :: n in allNodes ==> n.freq == old(n.freq)
      requires freqToFreqList[node.freq].Linked() && |old(ChainAt(node.freq))| >= 2
      requires ChainAt(node.freq) == old(ChainAt(node.freq))[..|old(ChainAt(node.freq))| - 1] + [node, freqToFreqList[node.freq].tail]
      ensures ListOk(node.freq)
      ensures forall n :: n in ChainAt(node.freq) ==> n == node || n in old(ChainAt(node.freq))
    {
      assert old(ListOk(node.freq));
    }

    // Create the list of node's frequency unless it exists.
    method EnsureList(node: Node<K, V>)
      requires Valid() && Detached(node) && node in allNodes
      modifies this`freqToFreqList, this`allLists, this`allNodes
      ensures Valid() && Detached(node) && node.freq in freqToFreqList
      ensures Entries() == old(Entries())
      ensures Lists() == WithList(old(Lists()), node.freq)
      ensures old(allLists) <= allLists && forall l :: l in allLists && l !in old(allLists) ==> fresh(l)
      ensures old(allNodes) <= allNodes && forall n :: n in allNodes && n !in old(allNodes) ==> fresh(n)
    {
      hide ListOk;
      var f := node.freq;
      if f !in freqToFreqList {
        var l := new FreqList(f, node.key, node.value);
        freqToFreqList := freqToFreqList[f := l];
        allLists := allLists + {l};
        allNodes := allNodes + {l.head, l.tail};
        NewListOk(l);
        NewListIs(l);
      }
    }

    twostate lemma NewListIs(new l: FreqList<K, V>)
      requires old(Valid()) && Valid() && l.freq !in old(freqToFreqList) && freqToFreqList == old(freqToFreqList)[l.freq := l]
      requires l.chain == [l.head, l.tail] && nodeMap == old(nodeMap)
      requires forall g :: g in old(freqToFreqList) ==> ChainAt(g) == old(ChainAt(g))
      requires forall k :: k in nodeMap ==> nodeMap[k].freq == old(nodeMap[k].freq) && nodeMap[k].value == old(nodeMap[k].value)
      requires forall n :: n in old(allNodes) ==> n != l.head && n != l.tail
      ensures Entries() == old(Entries()) && Lists() == WithList(old(Lists()), l.freq)
      ensures forall n :: n in old(allNodes) && old(Detached(n)) ==> Detached(n)
    {
      hide ListOk;
      forall g | g in freqToFreqList ensures ListOk(g) {}
      assert KeysOf(l.Nodes()) == [];
      var was, now := old(Lists()), Lists();
      forall g | g in was ensures g in now && now[g] == was[g] { assert ChainAt(g) == old(ChainAt(g)); }
      assert now == was[l.freq := []];
      assert forall n :: n in old(allNodes) ==> n !in ChainAt(l.freq);
    }

    method AddToFreqList(node: Node<K, V>)
      requires Valid() && node.key in nodeMap && nodeMap[node.key] == node && Detached(node)
      modifies this`freqToFreqList, this`allLists, this`allNodes, allLists`chain, allNodes`pre, allNodes`next
      ensures Valid() && Abs() == Attach(old(Abs()), node.key)
      ensures node.freq in freqToFreqList && node in ChainAt(node.freq)
      ensures old(allLists) <= allLists && forall l :: l in allLists && l !in old(allLists) ==> fresh(l)
      ensures old(allNodes) <= allNodes && forall n :: n in allNodes && n !in old(allNodes) ==> fresh(n)
    {
      hide ListOk, Valid, Entries, Lists, WithList;
      InMap(node);
      EntryOf(node);
      EnsureList(node);
      var l := freqToFreqList[node.freq];
      ListFacts(node.freq);
      NotIn(node);
      WithListAppend(old(Lists()), node.freq, node.key);
      label L:
      l.AddNode(node);
      Linked@L(node);
    }

    lemma InMap(node: Node<K, V>)
      requires Valid() && node.key in nodeMap && nodeMap[node.key] == node
      ensures node in allNodes && node.role == Data
    {}

    lemma NotIn(node: Node<K, V>)
      requires Valid() && Detached(node) && node.freq in freqToFreqList
      ensures node !in ChainAt(node.freq)
    {}

    // Take node off its list, change its frequency, link it again.
    method Relink(node: Node<K, V>, f: int)
      requires Valid() && node.key in nodeMap && nodeMap[node.key] == node
      requires node.freq in freqToFreqList && node in ChainAt(node.freq)
      modifies this`freqToFreqList, this`allLists, this`allNodes, allLists`chain, allNodes`pre, allNodes`next, node`freq
      ensures Valid() && Abs() == Move(old(Abs()), node.key, f)
      ensures old(allLists) <= allLists && forall l :: l in allLists && l !in old(allLists) ==> fresh(l)
      ensures old(allNodes) <= allNodes && forall n :: n in allNodes && n !in old(allNodes) ==> fresh(n)
    {
      hide ListOk, Without, Entries, Lists;
      EntryOf(node);
      RemoveFromFreqList(node);
      label L:
      node.freq := f;
      FreqSet@L(node);
      AddToFreqList(node);
    }

    // Changing the frequency of a node that is on no list changes its entry alone.
    twostate lemma FreqSet(node: Node<K, V>)
      requires old(Valid()) && node.key in nodeMap && nodeMap[node.key] == node && old(Detached(node))
      requires nodeMap == old(nodeMap) && freqToFreqList == old(freqToFreqList)
      requires allNodes == old(allNodes) && allLists == old(allLists)
      requires forall n :: n in allNodes ==> n.value == old(n.value) && n.pre == old(n.pre) && n.next == old(n.next)
      requires forall n :: n in allNodes && n != node ==> n.freq == old(n.freq)
      requires forall l :: l in allLists ==> l.chain == old(l.chain)
      ensures Valid() && Detached(node)
      ensures Lists() == old(Lists())
      ensures Entries() == old(Entries())[node.key := old(Entries())[node.key].(freq := node.freq)]
    {
      forall g | g in freqToFreqList ensures ListOk(g) { assert old(ListOk(g)); }
      assert Valid();
      forall k | k in nodeMap && k != node.key ensures nodeMap[k] != node && nodeMap[k] in allNodes {}
      EntriesFreqSet(node);
      forall g | g in freqToFreqList ensures Lists()[g] == old(Lists())[g] { assert ListOk(g); }
    }

    twostate lemma EntriesFreqSet(node: Node<K, V>)
      requires old(Valid()) && Valid() && node.key in nodeMap && nodeMap[node.key] == node && nodeMap == old(nodeMap)
      requires forall k :: k in nodeMap && k != node.key ==>
        nodeMap[k].freq == old(nodeMap[k].freq) && nodeMap[k].value == old(nodeMap[k].value)
      requires node.value == old(node.value)
      ensures Entries() == old(Entries())[node.key := old(Entries())[node.key].(freq := node.freq)]
    {}

    twostate lemma NewListOk(new l: FreqList<K, V>)
      requires old(Valid()) && l.freq !in old(freqToFreqList) && freqToFreqList == old(freqToFreqList)[l.freq := l]
      requires var h, t := l.head, l.tail; !old(allocated(l)) && !old(allocated(h)) && !old(allocated(t))
      requires l.Linked() && l.chain == [l.head, l.tail]
      requires nodeMap == old(nodeMap) && allLists == old(allLists) + {l} && allNodes == old(allNodes) + {l.head, l.tail}
      requires forall n :: n in old(allNodes) ==>
        n.freq == old(n.freq) && n.value == old(n.value) && n.pre == old(n.pre) && n.next == old(n.next)
      requires forall g :: g in old(freqToFreqList) ==> ChainAt(g) == old(ChainAt(g))
      ensures Valid()
    {
      forall g | g in freqToFreqList ensures ListOk(g) {
        if g != l.freq { assert old(ListOk(g)); }
      }
    }

    // A key the index lists under its frequency is a node of that list.
    lemma InList(node: Node<K, V>)
      requires Valid() && node.key in nodeMap && nodeMap[node.key] == node
      requires node.key in ListAt(Lists(), node.freq)
      ensures node.freq in freqToFreqList && node in ChainAt(node.freq)
    {
      var f := node.freq;
      assert ListOk(f);
      var nodes := freqToFreqList[f].Nodes();
      var i :| 0 <= i < |nodes| && KeysOf(nodes)[i] == node.key;
      assert nodes[i] == ChainAt(f)[i + 1];
    }

    // The part of getInternal before the totals are updated.
    method Promote(node: Node<K, V>)
      requires Valid() && Indexed(Abs()) && node.key in nodeMap && nodeMap[node.key] == node
      modifies this`freqToFreqList, this`allLists, this`allNodes, this`minFreq
      modifies allLists`chain, allNodes`pre, allNodes`next, node`freq
      ensures Valid() && Abs() == Hit(old(Abs()), node.key)
      ensures old(allLists) <= allLists && forall l :: l in allLists && l !in old(allLists) ==> fresh(l)
      ensures old(allNodes) <= allNodes && forall n :: n in allNodes && n !in old(allNodes) ==> fresh(n)
    {
      hide ListOk, Valid, Indexed, Move, Hit, Entries, Lists;
      EntryOf(node);
      IndexedList(Abs(), node.key);
      InList(node);
      ghost var c := Abs();
      var f := node.freq;
      HitFrom(c, node.key);
      MoveKeepsList(c, node.key, f + 1);
      Relink(node, f + 1);
      // The list it left still exists: asking whether it is empty is safe.
      ListFacts(f);
      ListsFacts(f);
      if f == minFreq && freqToFreqList[f].IsEmpty() {
        minFreq := minFreq + 1;
      }
    }

    lemma EntryOf(node: Node<K, V>)
      requires Valid() && node.key in nodeMap && nodeMap[node.key] == node
      ensures node.key in Entries() && Entries()[node.key] == Entry(node.freq, node.value)
    {}

    // The minimum over the occupied lists below the sentinel, visiting them in any order.
    method UpdateMinFreq()
      requires Valid()
      modifies `minFreq
      ensures Valid() && Abs() == old(Abs()).(minFreq := LeastOccupied(old(Abs()).lists))
    {
      hide ListOk, Valid, Entries, Lists;
      minFreq := INT8_MAX;
      var rest := freqToFreqList.Keys;
      while rest != {}
        invariant Valid() && Entries() == old(Entries()) && Lists() == old(Lists())
        invariant rest <= freqToFreqList.Keys
        invariant minFreq <= INT8_MAX
        invariant minFreq == INT8_MAX || ListAt(Lists(), minFreq) != []
        invariant forall f :: f in freqToFreqList && f !in rest && ListAt(Lists(), f) != [] ==> minFreq <= f
        decreases |rest|
      {
        // The witness that there is a list left to visit.
        ghost var some := Choose(rest);
        var f :| f in rest;
        ListFacts(f);
        ListsFacts(f);
        if !freqToFreqList[f].IsEmpty() {
          minFreq := if minFreq < f then minFreq else f;
        }
        rest := rest - {f};
      }
      ListsKeys();
      LeastIs(Lists(), minFreq);
      if minFreq == INT8_MAX {
        minFreq := 1;
      }
    }

    lemma ListsKeys()
      requires Valid()
      ensures Lists().Keys == freqToFreqList.Keys
    {}

    // One step of the ageing pass.
    method AgeOne(k: K)
      requires Valid() && Indexed(Abs()) && k in nodeMap
      modifies this`freqToFreqList, this`allLists, this`allNodes
      modifies allLists`chain, allNodes`pre, allNodes`next, allNodes`freq
      ensures Valid() && k in old(Abs()).entries
      ensures Abs() == Move(old(Abs()), k, Aged(old(Abs()).entries[k].freq, maxAverageNum))
      ensures old(allLists) <= allLists && forall l :: l in allLists && l !in old(allLists) ==> fresh(l)
      ensures old(allNodes) <= allNodes && forall n :: n in allNodes && n !in old(allNodes) ==> fresh(n)
    {
      hide ListOk, Valid, Entries, Lists, Indexed, Move;
      var node := nodeMap[k];
      MapFacts(k);
      EntryOf(node);
      IndexedList(Abs(), k);
      InList(node);
      var f := node.freq - Half(maxAverageNum);
      if f < 1 {
        f := 1;
      }
      Relink(node, f);
    }

    // The ageing loop: every node once, in whatever order the map yields them.
    method AgeNodes() returns (ghost order: seq<K>)
      requires Valid() && Indexed(Abs())
      modifies this`freqToFreqList, this`allLists, this`allNodes
      modifies allLists`chain, allNodes`pre, allNodes`next, allNodes`freq
      ensures Valid() && Enumerates(order, old(Abs()).entries.Keys)
      ensures Abs() == AgeAll(old(Abs()), order)
      ensures old(allLists) <= allLists && forall l :: l in allLists && l !in old(allLists) ==> fresh(l)
      ensures old(allNodes) <= allNodes && forall n :: n in allNodes && n !in old(allNodes) ==> fresh(n)
    {
      hide ListOk, Valid, Entries, Lists, Indexed, Move, Aged, Enumerates, Visited, NoDup;
      ghost var c := Abs();
      EntriesKeys();
      order := [];
      var rest := nodeMap.Keys;
      VisitNone(rest);
      while rest != {}
        invariant Valid() && Indexed(Abs())
        invariant rest <= nodeMap.Keys && Visited(c.entries.Keys, rest, order)
        invariant (forall k :: k in order ==> k in c.entries) && Abs() == AgeAll(c, order)
        invariant old(allLists) <= allLists && forall l :: l in allLists && l !in old(allLists) ==> fresh(l)
        invariant old(allNodes) <= allNodes && forall n :: n in allNodes && n !in old(allNodes) ==> fresh(n)
        decreases |rest|
      {
        var k :| k in rest;
        OneFewer(rest, k);
        AgeAllAppend(c, order, k);
        VisitNext(c.entries.Keys, rest, order, k);
        rest := rest - {k};
        order := order + [k];
        AgeOneIndexed(Abs(), k);
        AgeOne(k);
      }
      VisitAll(c.entries.Keys, order);
    }

    method HandleOverMaxAverageNum() returns (ghost order: seq<K>)
      requires Valid() && Indexed(Abs())
      modifies this`freqToFreqList, this`allLists, this`allNodes, this`minFreq
      modifies allLists`chain, allNodes`pre, allNodes`next, allNodes`freq
      ensures Valid() && Enumerates(order, old(Abs()).entries.Keys)
      ensures Abs() == HandleOver(old(Abs()), order)
      ensures old(allLists) <= allLists && forall l :: l in allLists && l !in old(allLists) ==> fresh(l)
      ensures old(allNodes) <= allNodes && forall n :: n in allNodes && n !in old(allNodes) ==> fresh(n)
    {
      hide ListOk, Valid, Entries, Lists, Indexed, LeastOccupied, Enumerates;
      ghost var c := Abs();
      EntriesKeys();
      order := AgeNodes();
      AgeNone(c, order);
      if nodeMap != map[] {
        UpdateMinFreq();
      }
    }

    method AddFreqNum() returns (ghost order: seq<K>)
      requires Valid() && Indexed(Abs())
      modifies this`freqToFreqList, this`allLists, this`allNodes, this`minFreq, this`curTotalNum, this`curAverageNum
      modifies allLists`chain, allNodes`pre, allNodes`next, allNodes`freq
      ensures Valid() && Enumerates(order, old(Abs()).entries.Keys)
      ensures Abs() == LfuIndex.AddFreqNum(old(Abs()), order)
      ensures old(allLists) <= allLists && forall l :: l in allLists && l !in old(allLists) ==> fresh(l)
      ensures old(allNodes) <= allNodes && forall n :: n in allNodes && n !in old(allNodes) ==> fresh(n)
    {
      hide ListOk, Valid, Entries, Lists, Indexed, Enumerates, HandleOver;
      ghost var c := Abs();
      EntriesSize();
      curTotalNum := curTotalNum + 1;
      if nodeMap == map[] {
        curAverageNum := 0;
      } else {
        curAverageNum := curTotalNum / |nodeMap|;
      }
      assert Abs() == Counted(c);
      SameLists(c, Abs());
      if curAverageNum > maxAverageNum {
        order := HandleOverMaxAverageNum();
      } else {
        order := SomeOrder(c.entries.Keys);
      }
    }

    lemma EntriesSize()
      requires Valid()
      ensures |Entries()| == |nodeMap| && (Entries() == map[] <==> nodeMap == map[])
    {
      assert Entries().Keys == nodeMap.Keys;
      assert |Entries().Keys| == |nodeMap.Keys|;
    }

    method DecreaseFreqNum(num: int)
      requires Valid()
      modifies this`curTotalNum, this`curAverageNum
      ensures Valid() && Entries() == old(Entries()) && Lists() == old(Lists())
      ensures curTotalNum == old(curTotalNum) - num
      ensures curAverageNum == if Entries() == map[] then 0 else curTotalNum / |Entries()|
    {
      hide ListOk, Valid, Entries, Lists;
      EntriesSize();
      curTotalNum := curTotalNum - num;
      if nodeMap == map[] {
        curAverageNum := 0;
      } else {
        curAverageNum := curTotalNum / |nodeMap|;
      }
    }

    // Evict the first node of the list at the cached minimum.
    method KickOut()
      requires Valid() && Indexed(Abs()) && ListAt(Abs().lists, minFreq) != []
      modifies this`nodeMap, this`curTotalNum, this`curAverageNum
      modifies allLists`chain, allNodes`pre, allNodes`next
      ensures Valid() && Victim(old(Abs())) in old(Abs()).entries
      ensures Abs() == LfuIndex.KickOut(old(Abs()))
    {
      hide ListOk, Valid, Entries, Lists, Indexed;
      ghost var c := Abs();
      VictimAt(c);
      ListFacts(minFreq);
      ListsFacts(minFreq);
      FirstKey(minFreq);
      var node := freqToFreqList[minFreq].GetFirstNode();
      EntryOf(node);
      RemoveFromFreqList(node);
      label L:
      nodeMap := nodeMap - {node.key};
      NodeErased@L(node);
      DecreaseFreqNum(node.freq);
    }

    lemma FirstKey(f: int)
      requires Valid() && f in freqToFreqList && ListAt(Lists(), f) != []
      ensures freqToFreqList[f].Linked() && freqToFreqList[f].chain[1] in ChainAt(f)
      ensures var n := freqToFreqList[f].chain[1];
        n.freq == f && n.key in nodeMap && nodeMap[n.key] == n && n.key == ListAt(Lists(), f)[0]
    {
      assert ListOk(f);
    }

    twostate lemma NodeErased(node: Node<K, V>)
      requires old(Valid()) && old(node.key in nodeMap && nodeMap[node.key] == node) && old(Detached(node))
      requires nodeMap == old(nodeMap) - {node.key} && freqToFreqList == old(freqToFreqList)
      requires allNodes == old(allNodes) && allLists == old(allLists)
      requires unchanged(allNodes) && unchanged(allLists)
      ensures Valid() && Lists() == old(Lists()) && Entries() == old(Entries()) - {node.key}
    {
      forall g | g in freqToFreqList ensures ListOk(g) {
        assert old(ListOk(g));
        var c := ChainAt(g);
        forall i | 0 < i < |c| - 1 ensures c[i].key in nodeMap && nodeMap[c[i].key] == c[i] {
          assert c[i] in c;
        }
      }
      assert Valid();
      SameChains();
    }

    // Create a node, enter it in the map, link it into the list of frequency 1.
    method InsertNode(key: K, value: V)
      requires Valid() && key !in nodeMap
      modifies this`nodeMap, this`freqToFreqList, this`allLists, this`allNodes
      modifies allLists`chain, allNodes`pre, allNodes`next
      ensures Valid() && Abs() == Insert(old(Abs()), key, value)
      ensures old(allLists) <= allLists && forall l :: l in allLists && l !in old(allLists) ==> fresh(l)
      ensures old(allNodes) <= allNodes && forall n :: n in allNodes && n !in old(allNodes) ==> fresh(n)
    {
      hide ListOk, Valid, Entries, Lists;
      var node := new Node(key, value, Data, 0);
      nodeMap := nodeMap[key := node];
      allNodes := allNodes + {node};
      NodeAdded(node);
      AddToFreqList(node);
    }

    twostate lemma NodeAdded(new node: Node<K, V>)
      requires old(Valid()) && !old(allocated(node)) && node.key !in old(nodeMap) && node.role == Data
      requires nodeMap == old(nodeMap)[node.key := node] && freqToFreqList == old(freqToFreqList)
      requires allNodes == old(allNodes) + {node} && allLists == old(allLists)
      requires forall n :: n in old(allNodes) ==>
        n.freq == old(n.freq) && n.value == old(n.value) && n.pre == old(n.pre) && n.next == old(n.next)
      requires forall g :: g in old(freqToFreqList) ==> ChainAt(g) == old(ChainAt(g))
      ensures Valid() && Detached(node) && Lists() == old(Lists())
      ensures Entries() == old(Entries())[node.key := Entry(node.freq, node.value)]
    {
      forall g | g in freqToFreqList ensures ListOk(g) { assert old(ListOk(g)); }
      assert Valid();
      SameChains();
    }

    twostate lemma SameChains()
      requires old(Valid()) && Valid() && freqToFreqList == old(freqToFreqList)
      requires forall g :: g in freqToFreqList ==> ChainAt(g) == old(ChainAt(g))
      ensures Lists() == old(Lists())
    {
      hide ListOk;
      forall g | g in freqToFreqList ensures ListOk(g) && old(ListOk(g)) {}
      var was, now := old(Lists()), Lists();
      forall g | g in freqToFreqList ensures now[g] == was[g] { assert ChainAt(g) == old(ChainAt(g)); }
    }

    method PutInternal(key: K, value: V) returns (ghost order: seq<K>)
      requires Valid() && Indexed(Abs()) && CanPut(Abs(), key) && key !in nodeMap && capacity > 0
      modifies this, allLists`chain, allNodes`pre, allNodes`next, allNodes`freq
      ensures Valid() && Enumerates(order, KeysOnPut(old(Abs()), key))
      ensures Abs() == LfuIndex.Put(old(Abs()), key, value, order)
      ensures old(allLists) <= allLists && forall l :: l in allLists && l !in old(allLists) ==> fresh(l)
      ensures old(allNodes) <= allNodes && forall n :: n in allNodes && n !in old(allNodes) ==> fresh(n)
    {
      hide ListOk, Valid, Entries, Lists, Indexed, Enumerates, Inv, CanPut, Positive, SumFreq,
        LfuIndex.AddFreqNum, Insert, LfuIndex.KickOut, ListAt, MakeRoom, Victim;
      ghost var c := Abs();
      EntriesSize();
      EntriesKeys();
      PutParts(c, key, value);
      if |nodeMap| == capacity {
        KickOut();
      }
      EntriesKeys();
      order := Admit(key, value);
    }

    // The part of putInternal after room has been made.
    method Admit(key: K, value: V) returns (ghost order: seq<K>)
      requires Valid() && key !in nodeMap && Indexed(Insert(Abs(), key, value))
      modifies this, allLists`chain, allNodes`pre, allNodes`next, allNodes`freq
      ensures Valid() && Enumerates(order, Insert(old(Abs()), key, value).entries.Keys)
      ensures var r := LfuIndex.AddFreqNum(Insert(old(Abs()), key, value), order);
        Abs() == r.(minFreq := if r.minFreq < 1 then r.minFreq else 1)
      ensures old(allLists) <= allLists && forall l :: l in allLists && l !in old(allLists) ==> fresh(l)
      ensures old(allNodes) <= allNodes && forall n :: n in allNodes && n !in old(allNodes) ==> fresh(n)
    {
      hide ListOk, Valid, Entries, Lists, Indexed, Enumerates, LfuIndex.AddFreqNum, Insert;
      InsertNode(key, value);
      ghost var lists, nodes := allLists, allNodes;
      order := AddFreqNum();
      minFreq := if minFreq < 1 then minFreq else 1;
      forall l | l in allLists && l !in old(allLists) ensures fresh(l) { if l in lists {} }
      forall n | n in allNodes && n !in old(allNodes) ensures fresh(n) { if n in nodes {} }
    }

    method GetInternal(node: Node<K, V>) returns (value: V, ghost order: seq<K>)
      requires Valid() && Indexed(Abs()) && node.key in nodeMap && nodeMap[node.key] == node
      modifies this`freqToFreqList, this`allLists, this`allNodes, this`minFreq, this`curTotalNum, this`curAverageNum
      modifies allLists`chain, allNodes`pre, allNodes`next, allNodes`freq
      ensures Valid() && value == node.value && Enumerates(order, old(Abs()).entries.Keys)
      ensures Abs() == LfuIndex.AddFreqNum(Hit(old(Abs()), node.key), order)
      ensures old(allLists) <= allLists && forall l :: l in allLists && l !in old(allLists) ==> fresh(l)
      ensures old(allNodes) <= allNodes && forall n :: n in allNodes && n !in old(allNodes) ==> fresh(n)
    {
      hide ListOk, Valid, Entries, Lists, Indexed, Enumerates, LfuIndex.AddFreqNum, Hit, Move;
      value := node.value;
      EntryOf(node);
      InMap(node);
      HitIndexed(Abs(), node.key);
      Promote(node);
      ghost var lists, nodes := allLists, allNodes;
      order := AddFreqNum();
      forall l | l in allLists && l !in old(allLists) ensures fresh(l) { if l in lists {} }
      forall n | n in allNodes && n !in old(allNodes) ensures fresh(n) { if n in nodes {} }
    }

    method Get(key: K) returns (r: Option<V>, ghost order: seq<K>)
      requires Valid() && Indexed(Abs())
      modifies this, allLists`chain, allNodes`pre, allNodes`next, allNodes`freq
      ensures Valid() && Indexed(Abs()) && Enumerates(order, old(Abs()).entries.Keys)
      ensures Inv(old(Abs())) && GoodAverage(maxAverageNum) ==> Inv(Abs())
      ensures Abs() == LfuIndex.Get(old(Abs()), key, order)
      ensures r == if key in old(Entries()) then Some(old(Entries())[key].value) else None
      ensures old(allLists) <= allLists && forall l :: l in allLists && l !in old(allLists) ==> fresh(l)
      ensures old(allNodes) <= allNodes && forall n :: n in allNodes && n !in old(allNodes) ==> fresh(n)
    {
      hide ListOk, Valid, Entries, Lists, Indexed, Enumerates, Inv, LfuIndex.AddFreqNum, Hit;
      ghost var c := Abs();
      EntriesKeys();
      if key in nodeMap {
        MapFacts(key);
        EntryOf(nodeMap[key]);
        var value;
        value, order := GetInternal(nodeMap[key]);
        r := Some(value);
      } else {
        order := SomeOrder(c.entries.Keys);
        r := None;
      }
      GetIndexed(c, key, order);
      if Inv(c) && GoodAverage(maxAverageNum) {
        GetKeeps(c, key, order);
      }
    }

    method Put(key: K, value: V) returns (ghost order: seq<K>)
      requires Valid() && Indexed(Abs()) && CanPut(Abs(), key)
      modifies this, allLists`chain, allNodes`pre, allNodes`next, allNodes`freq, allNodes`value
      ensures Valid() && Indexed(Abs()) && Enumerates(order, KeysOnPut(old(Abs()), key))
      ensures Inv(old(Abs())) && GoodAverage(maxAverageNum) ==> Inv(Abs())
      ensures Abs() == LfuIndex.Put(old(Abs()), key, value, order)
      ensures old(allLists) <= allLists && forall l :: l in allLists && l !in old(allLists) ==> fresh(l)
      ensures old(allNodes) <= allNodes && forall n :: n in allNodes && n !in old(allNodes) ==> fresh(n)
    {
      hide ListOk, Valid, Entries, Lists, Indexed, Enumerates, Inv, CanPut, MakeRoom, LfuIndex.AddFreqNum, Hit, Insert;
      ghost var c := Abs();
      EntriesKeys();
      if capacity == 0 {
        order := SomeOrder(c.entries.Keys);
      } else if key in nodeMap {
        MapFacts(key);
        var node := nodeMap[key];
        label L:
        node.value := value;
        ValueSet@L(node);
        WithValueIndexed(c, key, value);
        MakeRoomSame(c, key);
        assert KeysOnPut(c, key) == c.entries.Keys;
        var unused;
        unused, order := GetInternal(node);
      } else {
        order := PutInternal(key, value);
      }
      PutIndexed(c, key, value, order);
      if Inv(c) && GoodAverage(maxAverageNum) {
        PutKeeps(c, key, value, order);
      }
    }

    twostate lemma ValueSet(node: Node<K, V>)
      requires old(Valid()) && node.key in nodeMap && nodeMap[node.key] == node
      requires nodeMap == old(nodeMap) && freqToFreqList == old(freqToFreqList)
      requires allNodes == old(allNodes) && allLists == old(allLists)
      requires forall n :: n in allNodes ==> n.freq == old(n.freq) && n.pre == old(n.pre) && n.next == old(n.next)
      requires forall n :: n in allNodes && n != node ==> n.value == old(n.value)
      requires forall g :: g in freqToFreqList ==> ChainAt(g) == old(ChainAt(g))
      ensures Valid() && Lists() == old(Lists())
      ensures node.key in old(Entries())
      ensures Entries() == old(Entries())[node.key := old(Entries())[node.key].(value := node.value)]
    {
      forall g | g in freqToFreqList ensures ListOk(g) { assert old(ListOk(g)); }
      assert Valid();
      SameChains();
      forall k | k in nodeMap && k != node.key ensures nodeMap[k] != node && nodeMap[k] in allNodes {}
    }

    method Purge()
      requires Valid()
      modifies this`nodeMap, this`freqToFreqList
      ensures Valid() && Abs() == LfuIndex.Purge(old(Abs()))
    {
      nodeMap, freqToFreqList := map[], map[];
      assert Entries() == map[] && Lists() == map[];
    }

    lemma EntriesKeys()
      requires Valid()
      ensures Entries().Keys == nodeMap.Keys
    {}

    lemma MapFacts(k: K)
      requires Valid() && k in nodeMap
      ensures nodeMap[k].key == k && nodeMap[k] in allNodes
    {}
  }

  // order lists, once each, the keys that are not in rest.
  ghost predicate Visited<K>(keys: set<K>, rest: set<K>, order: seq<K>) {
    && NoDup(order)
    && (forall k :: k in order ==> k in keys && k !in rest)
    && (forall k :: k in keys && k !in rest ==> k in order)
  }

  lemma VisitNone<K>(keys: set<K>)
    ensures Visited(keys, keys, [])
  {}

  lemma VisitNext<K>(keys: set<K>, rest: set<K>, order: seq<K>, k: K)
    requires k in keys && k in rest && Visited(keys, rest, order)
    ensures Visited(keys, rest - {k}, order + [k])
  {
    AppendNoDup(order, k);
  }

  lemma VisitAll<K>(keys: set<K>, order: seq<K>)
    requires Visited(keys, {}, order)
    ensures Enumerates(order, keys)
  {}

  lemma FirstIn<K>(s: seq<K>)
    ensures s == [] || s[0] in s
  {}

  lemma AgeNone<K, V>(c: Cache<K, V>, order: seq<K>)
    requires Enumerates(order, c.entries.Keys)
    ensures c.entries.Keys == {} <==> c.entries == map[]
    ensures c.entries.Keys == {} ==> AgeAll(c, order) == c
  {
    FirstIn(order);
  }

  lemma AgeOneIndexed<K, V>(c: Cache<K, V>, k: K)
    requires Indexed(c) && k in c.entries
    ensures Indexed(Move(c, k, Aged(c.entries[k].freq, c.maxAverage)))
  {
    MoveFacts(c, k, Aged(c.entries[k].freq, c.maxAverage));
  }

  lemma {:induction false} AgeAllAppend<K, V>(c: Cache<K, V>, order: seq<K>, k: K)
    requires forall x :: x in order ==> x in c.entries
    requires k in c.entries
    ensures forall x :: x in order + [k] ==> x in c.entries
    ensures var a := AgeAll(c, order);
      AgeAll(c, order + [k]) == Move(a, k, Aged(a.entries[k].freq, a.maxAverage))
    decreases |order|
  {
    hide Move;
    if order == [] {
      assert order + [k] == [k];
      assert [k][1..] == [];
    } else {
      var f := Aged(c.entries[order[0]].freq, c.maxAverage);
      MoveKeys(c, order[0], f);
      AgeAllAppend(Move(c, order[0], f), order[1..], k);
      assert (order + [k])[1..] == order[1..] + [k];
    }
  }

  lemma LeastIs<K>(lists: map<int, seq<K>>, m: int)
    requires m <= INT8_MAX && (m == INT8_MAX || ListAt(lists, m) != [])
    requires forall f :: f in lists && ListAt(lists, f) != [] ==> m <= f
    ensures LeastOccupied(lists) == if m == INT8_MAX then 1 else m
  {
    var s := set f | f in Occupied(lists) && f < INT8_MAX;
    if s != {} {
      var f := MinOf(s);
      assert f in lists && ListAt(lists, f) != [];
      assert m <= f < INT8_MAX;
    }
    if m < INT8_MAX {
      assert m in s;
    }
  }

  // Some order of the keys, for an access that starts no ageing pass.
  lemma SomeOrder<K>(keys: set<K>) returns (order: seq<K>)
    ensures Enumerates(order, keys)
    decreases |keys|
  {
    if keys == {} {
      order := [];
    } else {
      var k := Choose(keys);
      var rest := SomeOrder(keys - {k});
      order := [k] + rest;
      assert order[1..] == rest;
    }
  }

  lemma PutParts<K, V>(c: Cache<K, V>, k: K, v: V)
    requires Indexed(c) && CanPut(c, k) && k !in c.entries && c.capacity > 0
    ensures Full(c, k) ==> ListAt(c.lists, c.minFreq) != [] && MakeRoom(c, k) == LfuIndex.KickOut(c)
    ensures !Full(c, k) ==> MakeRoom(c, k) == c
    ensures k !in MakeRoom(c, k).entries
    ensures Indexed(Insert(MakeRoom(c, k), k, v))
    ensures Insert(MakeRoom(c, k), k, v).entries.Keys == KeysOnPut(c, k)
  {
    hide Indexed, Positive, SumFreq, Insert, LfuIndex.KickOut;
    MakeRoomIndexed(c, k);
    InsertKeeps(MakeRoom(c, k), k, v);
    InsertSum(MakeRoom(c, k), k, v);
  }

  lemma HitFrom<K, V>(c: Cache<K, V>, k: K)
    requires k in c.entries
    ensures var f := c.entries[k].freq;
      var moved := Move(c, k, f + 1);
      Hit(c, k) == if f == c.minFreq && ListAt(moved.lists, f) == [] then moved.(minFreq := f + 1) else moved
    ensures Move(c, k, c.entries[k].freq + 1).minFreq == c.minFreq
  {}

  lemma IndexedList<K, V>(c: Cache<K, V>, k: K)
    requires Indexed(c) && k in c.entries
    ensures k in ListAt(c.lists, c.entries[k].freq)
  {}

  lemma MoveKeepsList<K, V>(c: Cache<K, V>, k: K, f: int)
    requires k in c.entries
    ensures c.entries[k].freq in Move(c, k, f).lists
  {}
}
