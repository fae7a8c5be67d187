/**
  karmarkar_karp as the library runs it: Set and State objects mutated in
  place and a heap of states. Everything computed is tied to the values of
  module KarmarkarKarp.
 */
module KarmarkarKarpObjects {
  import opened Sequences
  import opened KarmarkarKarp

  class PartSet {
    var sum: nat
    var items: seq<Item>

    function View(): Part
      reads this
    {
      Part(sum, items)
    }

    constructor ()
      ensures View() == EMPTY_PART
    {
      sum, items := 0, [];
    }

    method Add(item: Item)
      modifies this
      ensures View() == Part(old(sum) + item.len, old(items) + [item])
    {
      items := items + [item];
      sum := sum + item.len;
    }

    method Merge(other: PartSet)
      requires other != this
      modifies this
      ensures View() == MergeParts(old(View()), other.View())
    {
      var n := 0;
      while n < |other.items|
        invariant n <= |other.items|
        invariant items == old(items) + other.items[..n]
        invariant sum == old(sum) + Total(other.items[..n])
      {
        var item := other.items[n];
        items := items + [item];
        sum := sum + item.len;
        TotalAppend(other.items[..n], item);
        assert other.items[..n + 1] == other.items[..n] + [item];
        n := n + 1;
      }
      assert other.items[..n] == other.items;
    }
  }

  lemma {:induction false} TotalAppend(items: seq<Item>, item: Item)
    ensures Total(items + [item]) == Total(items) + item.len
  {
    if items == [] {
      assert items + [item] == [item];
    } else {
      assert (items + [item])[1..] == items[1..] + [item];
      TotalAppend(items[1..], item);
    }
  }

  function Views(sets: seq<PartSet>): (s: State)
    reads sets
    ensures |s| == |sets|
    ensures forall i :: 0 <= i < |s| ==> s[i] == sets[i].View()
  {
    seq(|sets|, i requires 0 <= i < |sets| reads sets => sets[i].View())
  }

  lemma ViewsCons(x: PartSet, sets: seq<PartSet>)
    ensures Views([x] + sets) == [x.View()] + Views(sets)
  {
  }

  /** Insert on objects: the same objects, in the order of their values. */
  function InsertSet(x: PartSet, sets: seq<PartSet>): (r: seq<PartSet>)
    reads x, sets
    decreases |sets|
    ensures forall i :: 0 <= i < |r| ==> r[i] == x || r[i] in sets
  {
    if sets == [] || !Heavier(sets[0].View(), x.View()) then [x] + sets
    else [sets[0]] + InsertSet(x, sets[1..])
  }

  /** sorted(sets, reverse=True) on the objects. */
  function SortSets(sets: seq<PartSet>): (r: seq<PartSet>)
    reads sets
    decreases |sets|
    ensures forall i :: 0 <= i < |r| ==> r[i] in sets
  {
    if sets == [] then [] else InsertSet(sets[0], SortSets(sets[1..]))
  }

  lemma {:induction false} InsertSetViews(x: PartSet, sets: seq<PartSet>)
    ensures multiset(InsertSet(x, sets)) == multiset{x} + multiset(sets)
    ensures Views(InsertSet(x, sets)) == Insert(Heavier, x.View(), Views(sets))
    decreases |sets|
  {
    if sets == [] || !Heavier(sets[0].View(), x.View()) {
      ViewsCons(x, sets);
    } else {
      InsertSetViews(x, sets[1..]);
      assert sets == [sets[0]] + sets[1..];
      ViewsCons(sets[0], sets[1..]);
      ViewsCons(sets[0], InsertSet(x, sets[1..]));
    }
  }

  lemma {:induction false} SortSetsViews(sets: seq<PartSet>)
    ensures multiset(SortSets(sets)) == multiset(sets)
    ensures Views(SortSets(sets)) == Sort(Heavier, Views(sets))
    decreases |sets|
  {
    if sets != [] {
      hide Heavier, PartLess, Insert, InsertSet, Views;
      var head, tail := sets[0], sets[1..];
      assert sets == [head] + tail;
      SortSetsViews(tail);
      InsertSetViews(head, SortSets(tail));
      ViewsCons(head, tail);
    }
  }

  lemma DistinctPermutation<T>(s: seq<T>, t: seq<T>)
    requires Distinct(s) && multiset(s) == multiset(t)
    ensures Distinct(t)
  {
    SameMembers(s, t);
    DistinctCounts(s);
    DistinctCounts(t);
  }

  /** The k sets of a new state, before they are sorted. */
  method FreshSets(items: seq<Item>, k: nat) returns (sets: seq<PartSet>)
    requires |items| <= k
    ensures |sets| == k && Distinct(sets)
    ensures forall s :: s in sets ==> fresh(s)
    ensures Views(sets) == Fresh(items, k)
  {
    sets := [];
    while |sets| < k
      invariant |sets| <= k && Distinct(sets)
      invariant forall s :: s in sets ==> fresh(s) && s.View() == EMPTY_PART
    {
      var s := new PartSet();
      sets := sets + [s];
    }
    var i := 0;
    while i < |items|
      invariant i <= |items|
      invariant forall j :: 0 <= j < i ==> sets[j].View() == FreshPart(items, j)
      invariant forall j :: i <= j < k ==> sets[j].View() == EMPTY_PART
    {
      var s := sets[i];
      s.Add(items[i]);
      i := i + 1;
    }
  }

  lemma MeansDistinct<T>(s: seq<T>)
    ensures Distinct(s) <==> forall i, j :: 0 <= i < j < |s| ==> s[i] != s[j]
  {
  }

  /** self.sets[i].merge(other.sets[k - 1 - i]) for every i. */
  method MergeSets(mine: seq<PartSet>, theirs: seq<PartSet>)
    requires |mine| == |theirs| && Distinct(mine)
    requires forall s :: s in mine ==> s !in theirs
    modifies mine
    ensures Views(mine) == Crossed(old(Views(mine)), old(Views(theirs)))
  {
    hide MergeParts, Crossed, Views, Distinct;
    assert forall i, j :: 0 <= i < j < |mine| ==> mine[i] != mine[j] by { MeansDistinct(mine); }
    var k, i := |mine|, 0;
    while i < k
      invariant i <= k
      invariant forall j :: 0 <= j < i ==>
        mine[j].View() == MergeParts(old(mine[j].View()), old(theirs[k - 1 - j].View()))
      invariant forall j :: i <= j < k ==> mine[j].View() == old(mine[j].View())
      invariant forall j :: 0 <= j < k ==> theirs[j].View() == old(theirs[j].View())
    {
      var s, t := mine[i], theirs[k - 1 - i];
      assert s in mine && t in theirs;
      s.Merge(t);
      i := i + 1;
    }
  }

  class PartState {
    const k: nat
    var sets: seq<PartSet>

    ghost predicate Valid()
      reads this
    {
      |sets| == k && Distinct(sets)
    }

    function Value(): State
      reads this, sets
    {
      Views(sets)
    }

    constructor (items: seq<Item>, k: nat)
      requires k > 0 && (|items| == 1 || |items| == k)
      ensures Valid() && this.k == k
      ensures Value() == InitState(items, k)
      ensures forall s :: s in sets ==> fresh(s)
    {
      hide *;
      var fs := FreshSets(items, k);
      SortSetsViews(fs);
      var sorted := SortSets(fs);
      DistinctPermutation(fs, sorted);
      SameMembers(fs, sorted);
      InitStateIs(items, k);
      this.k := k;
      sets := sorted;
      new;
      Unfold(this);
    }

    method Merge(other: PartState)
      requires Valid() && other.Valid() && k == other.k && this != other
      requires forall s :: s in sets ==> s !in other.sets
      modifies this, sets
      ensures Valid() && multiset(sets) == multiset(old(sets))
      ensures Value() == MergeStates(old(Value()), old(other.Value()))
    {
      hide *;
      Unfold(this);
      Unfold(other);
      ghost var mine, theirs := Value(), other.Value();
      assert MergeStates(mine, theirs) == Sort(Heavier, Crossed(mine, theirs)) by { MergeStatesIs(mine, theirs); }
      MergeSets(sets, other.sets);
      Resort();
    }

    /** Puts the sets back in decreasing order. */
    method Resort()
      requires Valid()
      modifies `sets
      ensures Valid() && multiset(sets) == multiset(old(sets))
      ensures Value() == Sort(Heavier, old(Views(sets)))
    {
      hide *;
      Unfold(this);
      var sorted := SortSets(sets);
      SortSetsViews(sets);
      DistinctPermutation(sets, sorted);
      SameMembers(sets, sorted);
      sets := sorted;
      Unfold(this);
    }
  }

  lemma Unfold(st: PartState)
    ensures st.Valid() <==> |st.sets| == st.k && Distinct(st.sets)
    ensures st.Value() == Views(st.sets)
  {
  }

  lemma InitStateIs(items: seq<Item>, k: nat)
    ensures InitState(items, k) == Sort(Heavier, Fresh(items, k))
  {
  }

  lemma MergeStatesIs(a: State, b: State)
    requires |a| == |b|
    ensures MergeStates(a, b) == Sort(Heavier, Crossed(a, b))
  {
  }

  // ----- the heap ---------------------------------------------------------------

  /** Every set of every state on the heap. */
  ghost function Footprint(heap: seq<PartState>): (f: set<object>)
    reads heap
    ensures forall i, x :: 0 <= i < |heap| && x in heap[i].sets ==> x in f
  {
    set i, x | 0 <= i < |heap| && x in heap[i].sets :: x
  }

  ghost function States(heap: seq<PartState>): (h: seq<State>)
    reads heap, Footprint(heap)
    ensures |h| == |heap|
    ensures forall i :: 0 <= i < |h| ==> h[i] == heap[i].Value()
  {
    seq(|heap|, i requires 0 <= i < |heap| reads heap, Footprint(heap) => heap[i].Value())
  }

  /** No two states on the heap share an object. */
  ghost predicate Separate(heap: seq<PartState>, k: nat)
    reads heap
  {
    && (forall i :: 0 <= i < |heap| ==> heap[i].Valid() && heap[i].k == k)
    && forall i, j :: 0 <= i < j < |heap| ==> heap[i] != heap[j] && Apart(heap[i], heap[j])
  }

  ghost predicate Apart(a: PartState, b: PartState)
    reads a, b
  {
    forall s, t :: s in a.sets && t in b.sets ==> s != t
  }

  lemma RemovedAt<T>(s: seq<T>, i: nat, j: nat)
    requires i < |s| && j < |s| - 1
    ensures RemoveAt(s, i)[j] == s[if j < i then j else j + 1]
  {
  }

  lemma StillSeparate(heap: seq<PartState>, k: nat, i: nat)
    requires Separate(heap, k) && i < |heap|
    ensures Separate(RemoveAt(heap, i), k) && heap[i].Valid() && heap[i].k == k
    ensures forall s :: s in RemoveAt(heap, i) ==> s != heap[i] && Apart(heap[i], s)
  {
    var rest := RemoveAt(heap, i);
    forall j | 0 <= j < |rest|
      ensures rest[j].Valid() && rest[j].k == k && rest[j] != heap[i] && Apart(heap[i], rest[j])
    {
      RemovedAt(heap, i, j);
    }
    forall a, b | 0 <= a < b < |rest| ensures rest[a] != rest[b] && Apart(rest[a], rest[b]) {
      RemovedAt(heap, i, a);
      RemovedAt(heap, i, b);
    }
  }

  /** The states and sets on the heap, for framing. */
  ghost predicate Owns(owned: set<object>, heap: seq<PartState>)
    reads heap
  {
    forall i :: 0 <= i < |heap| ==> OwnsState(owned, heap[i])
  }

  ghost predicate OwnsState(owned: set<object>, st: PartState)
    reads st
  {
    st in owned && forall x :: x in st.sets ==> x in owned
  }

  lemma StillOwned(owned: set<object>, heap: seq<PartState>, i: nat)
    requires Owns(owned, heap) && i < |heap|
    ensures Owns(owned, RemoveAt(heap, i)) && OwnsState(owned, heap[i])
  {
    forall j | 0 <= j < |heap| - 1 ensures OwnsState(owned, RemoveAt(heap, i)[j]) {
      RemovedAt(heap, i, j);
    }
  }

  lemma StillMirrored(heap: seq<PartState>, i: nat)
    requires i < |heap|
    ensures States(RemoveAt(heap, i)) == RemoveAt(States(heap), i)
  {
    forall j | 0 <= j < |heap| - 1 ensures States(RemoveAt(heap, i))[j] == RemoveAt(States(heap), i)[j] {
      RemovedAt(heap, i, j);
      RemovedAt(States(heap), i, j);
    }
  }

  /** Where the least state is. */
  method FindLeast(heap: seq<PartState>, k: nat) returns (i: nat)
    requires heap != [] && Separate(heap, k)
    ensures i < |heap| == |States(heap)| && i == LeastIndex(States(heap)) && States(heap) == old(States(heap))
  {
    ghost var h := States(heap);
    i := 0;
    var n := 1;
    while n < |heap|
      invariant 1 <= n <= |heap| && i < n && i == LeastIndex(h[..n])
    {
      hide StateLess, Separate;
      assert h[..n + 1][..n] == h[..n];
      if StateLess(heap[n].Value(), heap[i].Value()) { i := n; }
      n := n + 1;
    }
    assert h[..n] == h;
  }

  /** heapq.heappop: the state that no other state precedes. */
  method Pop(heap: seq<PartState>, k: nat, ghost owned: set<object>)
    returns (least: PartState, rest: seq<PartState>)
    requires heap != [] && Separate(heap, k) && Owns(owned, heap)
    ensures |rest| == |heap| - 1 && Separate(rest, k) && Owns(owned, rest)
    ensures least in heap && least.Valid() && least.k == k && OwnsState(owned, least)
    ensures forall s :: s in rest ==> s in heap && s != least && Apart(least, s)
    ensures least.Value() == old(States(heap))[LeastIndex(old(States(heap)))]
    ensures States(rest) == RemoveAt(old(States(heap)), LeastIndex(old(States(heap))))
  {
    var i := FindLeast(heap, k);
    hide *;
    StillSeparate(heap, k, i);
    StillOwned(owned, heap, i);
    StillMirrored(heap, i);
    least, rest := heap[i], RemoveAt(heap, i);
  }

  // ----- karmarkar_karp -----------------------------------------------------------

  /** A new state joins the heap. */
  lemma Pushed(heap: seq<PartState>, k: nat, st: PartState)
    requires Separate(heap, k) && st.Valid() && st.k == k
    requires forall s :: s in heap ==> s != st && Apart(s, st)
    ensures Separate(heap + [st], k)
    ensures States(heap + [st]) == States(heap) + [st.Value()]
  {
    var h := heap + [st];
    forall i, j | 0 <= i < j < |h| ensures h[i] != h[j] && Apart(h[i], h[j]) {
      if j == |heap| { assert heap[i] in heap; }
    }
  }

  method PushNew(heap: seq<PartState>, items: seq<Item>, k: nat, ghost state: State, ghost owned: set<object>)
    returns (heap': seq<PartState>, ghost owned': set<object>)
    requires k > 0 && (|items| == 1 || |items| == k)
    requires Separate(heap, k) && Owns(owned, heap) && state == InitState(items, k)
    ensures Separate(heap', k) && Owns(owned', heap')
    ensures fresh(owned' - owned)
    ensures States(heap') == States(heap) + [state]
  {
    var st := new PartState(items, k);
    forall s | s in heap ensures s != st && Apart(s, st) {
      forall x, y | x in s.sets && y in st.sets ensures x != y { assert x in owned; }
    }
    Pushed(heap, k, st);
    heap' := heap + [st];
    owned' := owned + {st} + set x | x in st.sets;
  }

  lemma EmptyHeap(k: nat)
    ensures Separate([], k) && Owns({}, []) && States([]) == []
  {
  }

  method StartHeap(groups: seq<seq<Item>>, k: nat) returns (heap: seq<PartState>, ghost owned: set<object>)
    requires k > 0 && forall i :: 0 <= i < |groups| ==> |groups[i]| == 1 || |groups[i]| == k
    ensures Separate(heap, k) && Owns(owned, heap) && fresh(owned)
    ensures States(heap) == InitStates(groups, k)
  {
    hide *;
    heap, owned := [], {};
    EmptyHeap(k);
    ghost var goal := InitStates(groups, k);
    var n := 0;
    while n < |groups|
      invariant n <= |groups|
      invariant Separate(heap, k) && Owns(owned, heap) && fresh(owned)
      invariant States(heap) == goal[..n]
    {
      heap, owned := PushNew(heap, groups[n], k, goal[n], owned);
      n := n + 1;
    }
  }

  /** The popped second state is folded into the first, which goes back on the heap. */
  method MergeBack(state0: PartState, state1: PartState, rest: seq<PartState>, k: nat, ghost owned: set<object>)
    returns (heap: seq<PartState>)
    requires state0.Valid() && state1.Valid() && state0.k == state1.k == k
    requires state0 != state1 && Apart(state0, state1)
    requires Separate(rest, k) && forall s :: s in rest ==> s != state0 && Apart(state0, s)
    requires Owns(owned, rest) && OwnsState(owned, state0)
    modifies state0, state0.sets
    ensures |heap| == |rest| + 1 && Separate(heap, k) && Owns(owned, heap)
    ensures States(heap) == old(States(rest)) + [MergeStates(old(state0.Value()), old(state1.Value()))]
  {
    hide *;
    ghost var kept := KeepOthers(owned, rest, state0);
    DisjointSets(state0, state1);
    ghost var before := state0.sets;
    state0.Merge(state1);
    SameMembers(before, state0.sets);
    heap := rest + [state0];
    OwnsMerged(owned, kept, before, rest, state0);
    Pushed(rest, k, state0);
  }

  lemma DisjointSets(a: PartState, b: PartState)
    requires Apart(a, b)
    ensures forall s :: s in a.sets ==> s !in b.sets
  {
  }

  /** What is left of the owned objects without one state covers all other states. */
  lemma KeepOthers(owned: set<object>, rest: seq<PartState>, st: PartState) returns (kept: set<object>)
    requires Owns(owned, rest) && OwnsState(owned, st) && forall s :: s in rest ==> s != st && Apart(st, s)
    ensures kept <= owned && Owns(kept, rest) && st !in kept && forall x :: x in st.sets ==> x !in kept
    ensures Footprint(rest) <= kept && forall s :: s in rest ==> s in kept
    ensures st in owned && forall x :: x in st.sets ==> x in owned
  {
    kept := set o | o in owned && o != st && o !in st.sets;
    forall i | 0 <= i < |rest| ensures OwnsState(kept, rest[i]) {
      assert rest[i] in rest;
    }
  }

  lemma OwnsMerged(owned: set<object>, kept: set<object>, before: seq<PartSet>, rest: seq<PartState>, st: PartState)
    requires kept <= owned && Owns(kept, rest) && st in owned && st !in kept
    requires forall x :: x in st.sets <==> x in before
    requires forall x :: x in before ==> x in owned && x !in kept
    ensures Owns(owned, rest + [st])
    ensures forall s :: s in rest ==> s != st && Apart(s, st)
  {
  }

  lemma UniformStates(heap: seq<PartState>, k: nat)
    requires Separate(heap, k)
    ensures Uniform(States(heap), k)
  {
  }

  lemma NextIs(h: seq<State>, k: nat)
    requires |h| >= 2 && Uniform(h, k)
    ensures var rest := RemoveAt(h, LeastIndex(h));
      && |h[LeastIndex(h)]| == |rest[LeastIndex(rest)]|
      && Next(HeapTop, h, k)
         == RemoveAt(rest, LeastIndex(rest)) + [MergeStates(h[LeastIndex(h)], rest[LeastIndex(rest)])]
  {
    hide LeastIndex, MergeStates;
  }

  /** One round of the heap loop. */
  method Round(heap: seq<PartState>, k: nat, ghost owned: set<object>) returns (heap': seq<PartState>)
    requires |heap| >= 2 && Separate(heap, k) && Owns(owned, heap)
    modifies owned
    ensures Separate(heap', k) && Owns(owned, heap')
    ensures Uniform(old(States(heap)), k) && States(heap') == Next(HeapTop, old(States(heap)), k)
  {
    hide *;
    UniformStates(heap, k);
    ghost var h := States(heap);
    NextIs(h, k);
    ghost var goal := Next(HeapTop, h, k);
    var state0, rest0 := Pop(heap, k, owned);
    var state1, rest1 := Pop(rest0, k, owned);
    Modifiable(owned, state0);
    assert goal == States(rest1) + [MergeStates(state0.Value(), state1.Value())];
    heap' := MergeBack(state0, state1, rest1, k, owned);
  }

  lemma Modifiable(owned: set<object>, st: PartState)
    requires OwnsState(owned, st)
    ensures st in owned && forall x :: x in st.sets ==> x in owned
  {
  }

  /** karmarkar_karp: the parts are those of the differencing run on values. */
  method Partition(lens: seq<nat>, k: nat, equalSize: bool) returns (parts: seq<seq<nat>>)
    requires Callable(lens, k, equalSize)
    ensures parts == PartitionBy(HeapTop, lens, k, equalSize)
  {
    StartBag(lens, k, equalSize);
    var groups := StartGroups(lens, k, equalSize);
    var heap, owned := StartHeap(groups, k);
    ghost var goal := Reduce(HeapTop, InitialHeap(lens, k, equalSize), k);
    while |heap| > 1
      invariant |heap| >= 1 && Separate(heap, k) && Owns(owned, heap) && fresh(owned)
      invariant Uniform(States(heap), k) && Reduce(HeapTop, States(heap), k) == goal
      decreases |heap|
    {
      hide Next;
      heap := Round(heap, k, owned);
    }
    parts := PartIndices(heap[0].Value());
  }

  /**
    _check_and_sort_partitions. The checks the library makes on the parts it is
    about to return are asserted here, so they never fire.
   */
  method CheckAndSort(parts: seq<seq<nat>>, k: nat, n: nat) returns (sorted: seq<seq<nat>>)
    requires |parts| == k && IsPermutation(Concat(parts), n)
    requires forall i :: 0 <= i < k ==> parts[i] != []
    ensures sorted == SortParts(parts)
  {
    hide Sort;
    sorted := [];
    var seen: set<nat> := {};
    var i := 0;
    while i < k
      invariant i <= k
      invariant |sorted| == i && forall j :: 0 <= j < i ==> sorted[j] == Sort(Smaller, parts[j])
      invariant seen == set x | x in Concat(parts[..i])
    {
      assert |parts[i]| > 0;
      ConcatOneMore(parts, i);
      seen := seen + set x | x in parts[i];
      sorted := sorted + [Sort(Smaller, parts[i])];
      i := i + 1;
    }
    assert parts[..i] == parts;
    SameMembers(Concat(parts), Range(n));
    assert seen == set x | x in Range(n);
  }

  /** get_seqlen_balanced_partitions */
  method BalancedPartitions(lens: seq<nat>, k: nat, equalSize: bool) returns (sorted: seq<seq<nat>>)
    requires 0 < k <= |lens| && (equalSize ==> |lens| % k == 0)
    ensures sorted == Balanced(lens, k, equalSize)
  {
    PartitionTheorem(HeapTop, lens, k, equalSize);
    var parts := Partition(lens, k, equalSize);
    sorted := CheckAndSort(parts, k, |lens|);
  }
}
