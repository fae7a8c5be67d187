/**
  Two facts about whole runs of the differencing partitioner: it does not matter which correct
  priority queue pops the states, and the two longest samples end in different parts.
 */
module KarmarkarKarpRuns {
  import opened Arithmetic
  import opened Sequences
  import opened KarmarkarKarp

  // ----- one round in full -----------------------------------------------------------------------

  /** m pairs the parts of a with those of b crosswise, items of a first, and puts the heaviest first. */
  ghost predicate PairedCrosswise(a: State, b: State, m: State) {
    && |a| == |b| == |m|
    && Sorted(Heavier, m)
    && exists c: State ::
         && multiset(c) == multiset(m) && |c| == |a|
         && forall i :: 0 <= i < |c| ==>
              && c[i].sum == a[i].sum + b[|b| - 1 - i].sum
              && c[i].items == a[i].items + b[|b| - 1 - i].items
  }

  /** A round takes out `a`, which nothing precedes, then `b`, which nothing left precedes, and pushes m. */
  ghost predicate IsRound(heap: seq<State>, next: seq<State>, a: State, b: State, m: State, rest: seq<State>) {
    && multiset(heap) == multiset{a} + (multiset{b} + multiset(rest))
    && multiset(next) == multiset{m} + multiset(rest)
    && (forall s :: s in heap ==> !StateLess(s, a))
    && (forall s :: s in rest ==> !StateLess(s, b))
    && PairedCrosswise(a, b, m)
  }

  lemma RemovedBag<T>(s: seq<T>, i: nat)
    requires i < |s|
    ensures multiset(s) == multiset{s[i]} + multiset(RemoveAt(s, i))
  {
    assert s == s[..i] + ([s[i]] + s[i + 1..]);
  }

  lemma MergePairsCrosswise(lens: seq<nat>, k: nat, a: State, b: State)
    requires WellFormed(lens, k, a) && WellFormed(lens, k, b)
    ensures PairedCrosswise(a, b, MergeStates(a, b))
  {
    MergeWellFormed(lens, k, a, b);
    var c := Crossed(a, b);
    hide *;
    CrossedIs(a, b);
    MergedIs(lens, k, a, b);
    PairedBy(a, b, c, MergeStates(a, b));
  }

  lemma CrossedIs(a: State, b: State)
    requires |a| == |b|
    ensures forall i :: 0 <= i < |a| ==> Crossed(a, b)[i].items == a[i].items + b[|b| - 1 - i].items
  {
  }

  lemma MergedIs(lens: seq<nat>, k: nat, a: State, b: State)
    requires WellFormed(lens, k, a) && WellFormed(lens, k, b)
    ensures |a| == |b| == k == |MergeStates(a, b)| && multiset(Crossed(a, b)) == multiset(MergeStates(a, b))
    ensures WellFormed(lens, k, MergeStates(a, b)) ==> Sorted(Heavier, MergeStates(a, b))
  {
  }

  lemma PairedBy(a: State, b: State, c: State, m: State)
    requires |a| == |b| == |m| == |c| && Sorted(Heavier, m) && multiset(c) == multiset(m)
    requires forall i :: 0 <= i < |c| ==> c[i].sum == a[i].sum + b[|b| - 1 - i].sum
    requires forall i :: 0 <= i < |c| ==> c[i].items == a[i].items + b[|b| - 1 - i].items
    ensures PairedCrosswise(a, b, m)
  {
  }

  /** Every round of every correct priority queue, on any heap of well-formed states. */
  lemma RoundTheorem(pick: seq<State> -> nat, lens: seq<nat>, k: nat, heap: seq<State>)
    requires PopsLeast(pick) && |heap| >= 2 && k > 0 && forall s :: s in heap ==> WellFormed(lens, k, s)
    ensures Uniform(heap, k)
    ensures exists a, b, m, rest :: IsRound(heap, Next(pick, heap, k), a, b, m, rest)
  {
    assert Uniform(heap, k);
    hide *;
    var a, b, rest := RoundPops(pick, k, heap);
    MergePairsCrosswise(lens, k, a, b);
    RoundOf(heap, a, b, rest);
  }

  lemma RoundOf(heap: seq<State>, a: State, b: State, rest: seq<State>)
    requires |a| == |b| && PairedCrosswise(a, b, MergeStates(a, b))
    requires multiset(heap) == multiset{a} + (multiset{b} + multiset(rest))
    requires (forall s :: s in heap ==> !StateLess(s, a)) && (forall s :: s in rest ==> !StateLess(s, b))
    ensures IsRound(heap, rest + [MergeStates(a, b)], a, b, MergeStates(a, b), rest)
  {
    hide MergeStates, StateLess, PairedCrosswise;
  }

  lemma RoundPops(pick: seq<State> -> nat, k: nat, heap: seq<State>) returns (a: State, b: State, rest: seq<State>)
    requires PopsLeast(pick) && |heap| >= 2 && k > 0 && Uniform(heap, k)
    ensures a in heap && b in heap && |a| == |b| && Next(pick, heap, k) == rest + [MergeStates(a, b)]
    ensures multiset(heap) == multiset{a} + (multiset{b} + multiset(rest))
    ensures (forall s :: s in heap ==> !StateLess(s, a)) && (forall s :: s in rest ==> !StateLess(s, b))
  {
    var i := Chosen(pick, heap);
    var others := RemoveAt(heap, i);
    var j := Chosen(pick, others);
    a, b, rest := heap[i], others[j], RemoveAt(others, j);
    ChosenIsLeast(pick, heap, k);
    ChosenIsLeast(pick, others, k);
    hide MergeStates, StateLess, PopsLeast, Chosen;
    PoppedBag(heap, i, others, j, rest, a, b);
  }

  lemma PoppedBag(heap: seq<State>, i: nat, others: seq<State>, j: nat, rest: seq<State>, a: State, b: State)
    requires i < |heap| && others == RemoveAt(heap, i) && j < |others| && rest == RemoveAt(others, j)
    requires a == heap[i] && b == others[j] && IsLeast(heap, i) && IsLeast(others, j)
    ensures multiset(heap) == multiset{a} + (multiset{b} + multiset(rest))
    ensures (forall s :: s in heap ==> !StateLess(s, a)) && (forall s :: s in rest ==> !StateLess(s, b))
  {
    hide StateLess;
    RemovedBag(heap, i);
    RemovedBag(others, j);
    assert forall s :: s in rest ==> s in others;
  }

  // ----- any priority queue gives the same run ---------------------------------------------------

  /** No sample is on the heap twice, and every state holds some. */
  ghost predicate Disjoint(heap: seq<State>) {
    && (forall x :: HeapBag(heap)[x] <= 1)
    && forall s :: s in heap ==> Bag(s) != multiset{}
  }

  /** heap[i] is preceded by no other state. */
  ghost predicate IsLeast(heap: seq<State>, i: nat) {
    i < |heap| && forall j :: 0 <= j < |heap| ==> !StateLess(heap[j], heap[i])
  }

  /** A correct priority queue: it pops a state that no other precedes. */
  ghost predicate PopsLeast(pick: seq<State> -> nat) {
    forall heap :: heap != [] && (forall s :: s in heap ==> s != []) ==> IsLeast(heap, pick(heap))
  }

  lemma HeapTopPopsLeast()
    ensures PopsLeast(HeapTop)
  {
    forall heap: seq<State> | heap != [] && (forall s :: s in heap ==> s != []) ensures IsLeast(heap, HeapTop(heap)) {
      forall i | 0 <= i < |heap| ensures heap[i] != [] { assert heap[i] in heap; }
      LeastIndexIsLeast(heap);
    }
  }

  lemma ChosenIsLeast(pick: seq<State> -> nat, heap: seq<State>, k: nat)
    requires PopsLeast(pick) && heap != [] && k > 0 && Uniform(heap, k)
    ensures IsLeast(heap, Chosen(pick, heap))
  {
    assert forall s :: s in heap ==> s != [];
  }

  /** The least states of two heaps with the same contents are the same. */
  lemma LeastIsUnique(lens: seq<nat>, k: nat, equalSize: bool, bound: int, g: seq<State>, h: seq<State>, i: nat, j: nat)
    requires AllFine(lens, k, equalSize, bound, g) && Disjoint(g) && multiset(g) == multiset(h)
    requires IsLeast(g, i) && IsLeast(h, j)
    ensures g[i] == h[j]
  {
    hide Fine, Bag, HeapBag, StateLess;
    SameMembers(g, h);
    var m := MemberAt(g, h[j]);
    var n := MemberAt(h, g[i]);
    if m < i {
      NoTies(lens, k, equalSize, bound, g, m, i);
    } else if i < m {
      NoTies(lens, k, equalSize, bound, g, i, m);
    }
  }

  lemma RemoveSame<T>(g: seq<T>, h: seq<T>, i: nat, j: nat)
    requires multiset(g) == multiset(h) && i < |g| && j < |h| && g[i] == h[j]
    ensures multiset(RemoveAt(g, i)) == multiset(RemoveAt(h, j))
  {
    assert g == g[..i] + ([g[i]] + g[i + 1..]);
    assert h == h[..j] + ([h[j]] + h[j + 1..]);
    assert multiset(g) - multiset{g[i]} == multiset(g[..i]) + multiset(g[i + 1..]);
    assert multiset(h) - multiset{h[j]} == multiset(h[..j]) + multiset(h[j + 1..]);
  }

  lemma RemoveStaysFine(lens: seq<nat>, k: nat, equalSize: bool, bound: int, heap: seq<State>, i: nat)
    requires AllFine(lens, k, equalSize, bound, heap) && Disjoint(heap) && i < |heap|
    ensures AllFine(lens, k, equalSize, bound, RemoveAt(heap, i)) && Disjoint(RemoveAt(heap, i))
  {
    hide Fine, Bag, HeapBag;
    HeapBagRemove(heap, i);
    forall x ensures HeapBag(RemoveAt(heap, i))[x] <= 1 { assert HeapBag(heap)[x] <= 1; }
  }

  lemma NextIsDisjoint(pick: seq<State> -> nat, heap: seq<State>, k: nat)
    requires |heap| >= 2 && Uniform(heap, k) && Disjoint(heap)
    ensures Disjoint(Next(pick, heap, k))
  {
    hide Bag, HeapBag, Next;
    NextBag(pick, heap, k);
    var a, b := NextMembers(pick, heap, k);
    MergeBag(a, b);
  }

  /** One round of two correct queues on heaps with the same contents pops the same two states. */
  lemma RoundsAgree(p: seq<State> -> nat, q: seq<State> -> nat, g: seq<State>, h: seq<State>,
                    lens: seq<nat>, k: nat, equalSize: bool, bound: int)
    requires PopsLeast(p) && PopsLeast(q) && |g| >= 2 && |h| >= 2 && k > 0 && Uniform(g, k) && Uniform(h, k)
    requires AllFine(lens, k, equalSize, bound, g) && Disjoint(g) && multiset(g) == multiset(h)
    ensures multiset(Next(p, g, k)) == multiset(Next(q, h, k))
  {
    var i, j := Chosen(p, g), Chosen(q, h);
    var g', h' := RemoveAt(g, i), RemoveAt(h, j);
    assert Uniform(g', k) && Uniform(h', k);
    var i', j' := Chosen(p, g'), Chosen(q, h');
    assert Next(p, g, k) == RemoveAt(g', i') + [MergeStates(g[i], g'[i'])];
    assert Next(q, h, k) == RemoveAt(h', j') + [MergeStates(h[j], h'[j'])];
    hide *;
    ChosenIsLeast(p, g, k);
    ChosenIsLeast(q, h, k);
    LeastIsUnique(lens, k, equalSize, bound, g, h, i, j);
    RemoveSame(g, h, i, j);
    RemoveStaysFine(lens, k, equalSize, bound, g, i);
    ChosenIsLeast(p, g', k);
    ChosenIsLeast(q, h', k);
    LeastIsUnique(lens, k, equalSize, bound, g', h', i', j');
    RemoveSame(g', h', i', j');
  }

  lemma {:induction false} RunsAgree(p: seq<State> -> nat, q: seq<State> -> nat, g: seq<State>, h: seq<State>,
                                     lens: seq<nat>, k: nat, equalSize: bool, bound: int)
    requires PopsLeast(p) && PopsLeast(q) && g != [] && h != [] && k > 0 && Uniform(g, k) && Uniform(h, k)
    requires AllFine(lens, k, equalSize, bound, g) && Disjoint(g) && multiset(g) == multiset(h)
    ensures Reduce(p, g, k) == Reduce(q, h, k)
    decreases |g|
  {
    hide PopsLeast, Fine, Disjoint, Next, AllFine;
    SameMembers(g, h);
    if |g| == 1 {
      assert g[0] in g && h[0] in h;
    } else {
      RoundsAgree(p, q, g, h, lens, k, equalSize, bound);
      NextFine(p, g, lens, k, equalSize, bound);
      NextIsDisjoint(p, g, k);
      RunsAgree(p, q, Next(p, g, k), Next(q, h, k), lens, k, equalSize, bound);
    }
  }

  lemma StartDisjoint(lens: seq<nat>, k: nat, equalSize: bool)
    requires Callable(lens, k, equalSize)
    ensures Disjoint(InitialHeap(lens, k, equalSize))
  {
    var heap, groups := InitialHeap(lens, k, equalSize), StartGroups(lens, k, equalSize);
    StartBag(lens, k, equalSize);
    forall x: nat ensures HeapBag(heap)[x] <= 1 { RangeCounts(|lens|, x); }
    forall s | s in heap ensures Bag(s) != multiset{} {
      var i := MemberAt(heap, s);
      InitStateBag(groups[i], k);
      assert Indices(groups[i])[0] in Indices(groups[i]);
    }
  }

  /**
    Whichever correct priority queue pops the states, and in whatever order it keeps the heap, the
    run ends in the same state: the one of the rule HeapTop.
   */
  lemma AnyQueueAgrees(pick: seq<State> -> nat, heap: seq<State>, lens: seq<nat>, k: nat, equalSize: bool)
    requires Callable(lens, k, equalSize) && PopsLeast(pick)
    requires multiset(heap) == multiset(InitialHeap(lens, k, equalSize))
    ensures heap != [] && InitialHeap(lens, k, equalSize) != [] && Uniform(heap, k)
    ensures Reduce(pick, heap, k) == Reduce(HeapTop, InitialHeap(lens, k, equalSize), k)
  {
    var start := InitialHeap(lens, k, equalSize);
    StartBag(lens, k, equalSize);
    StartFine(lens, k, equalSize);
    StartDisjoint(lens, k, equalSize);
    SameMembers(start, heap);
    HeapTopPopsLeast();
    assert k > 0 && Uniform(heap, k);
    hide *;
    RunsAgree(HeapTop, pick, start, heap, lens, k, equalSize, SpreadBound(lens, k, equalSize));
  }

  // ----- the two longest samples are kept apart ------------------------------------------------------

  /** x and y are in two different parts. */
  ghost predicate Parted(s: State, x: nat, y: nat) {
    exists p, q :: multiset{p, q} <= multiset(s) && x in Indices(p.items) && y in Indices(q.items)
  }

  lemma TwoOf<T>(s: seq<T>, i: nat, j: nat)
    requires i < |s| && j < |s| && i != j
    ensures multiset{s[i], s[j]} <= multiset(s)
  {
    var m, n := if i < j then i else j, if i < j then j else i;
    assert s == s[..n] + s[n..];
    assert s[m] in s[..n] && s[n] in s[n..];
    assert multiset{s[m]} <= multiset(s[..n]) && multiset{s[n]} <= multiset(s[n..]);
  }

  lemma {:induction false} TwoAt<T>(s: seq<T>, p: T, q: T) returns (i: nat, j: nat)
    requires multiset{p, q} <= multiset(s)
    ensures i < |s| && j < |s| && i != j && s[i] == p && s[j] == q
  {
    assert p in multiset{p, q} && q in multiset{p, q};
    i := MemberAt(s, p);
    var rest := RemoveAt(s, i);
    assert s == s[..i] + ([s[i]] + s[i + 1..]);
    assert multiset(s) == multiset{p} + multiset(rest);
    assert multiset{p, q} == multiset{p} + multiset{q};
    assert multiset(rest)[q] >= 1;
    var m := MemberAt(rest, q);
    j := if m < i then m else m + 1;
  }

  lemma PartedAt(s: State, i: nat, j: nat, x: nat, y: nat)
    requires i < |s| && j < |s| && i != j && x in Indices(s[i].items) && y in Indices(s[j].items)
    ensures Parted(s, x, y)
  {
    TwoOf(s, i, j);
  }

  lemma SortKeepsParted(s: State, x: nat, y: nat)
    requires Parted(s, x, y)
    ensures Parted(Sort(Heavier, s), x, y)
  {
  }

  lemma MergedHolds(a: Part, b: Part, x: nat)
    ensures x in Indices(MergeParts(a, b).items) <==> x in Indices(a.items) || x in Indices(b.items)
  {
    IndicesConcat(a.items, b.items);
  }

  /** What one of two states keeps apart, their merge keeps apart. */
  lemma MergeKeepsParted(a: State, b: State, x: nat, y: nat)
    requires |a| == |b| && (Parted(a, x, y) || Parted(b, x, y))
    ensures Parted(MergeStates(a, b), x, y)
  {
    hide *;
    if Parted(a, x, y) {
      var i, j := PartedWhere(a, x, y);
      CrossedParted(a, b, i, j, x, y);
    } else {
      var i, j := PartedWhere(b, x, y);
      CrossedParted(a, b, |b| - 1 - i, |b| - 1 - j, x, y);
    }
    MergeSorts(a, b);
    SortKeepsParted(Crossed(a, b), x, y);
  }

  lemma MergeSorts(a: State, b: State)
    requires |a| == |b|
    ensures MergeStates(a, b) == Sort(Heavier, Crossed(a, b))
  {
  }

  lemma PartedWhere(s: State, x: nat, y: nat) returns (i: nat, j: nat)
    requires Parted(s, x, y)
    ensures i < |s| && j < |s| && i != j && x in Indices(s[i].items) && y in Indices(s[j].items)
  {
    var p, q :| multiset{p, q} <= multiset(s) && x in Indices(p.items) && y in Indices(q.items);
    hide *;
    i, j := TwoAt(s, p, q);
  }

  lemma CrossedParted(a: State, b: State, i: nat, j: nat, x: nat, y: nat)
    requires |a| == |b| && i < |a| && j < |a| && i != j
    requires x in Indices(a[i].items) || x in Indices(b[|b| - 1 - i].items)
    requires y in Indices(a[j].items) || y in Indices(b[|b| - 1 - j].items)
    ensures Parted(Crossed(a, b), x, y)
  {
    hide *;
    MergedHolds(a[i], b[|b| - 1 - i], x);
    MergedHolds(a[j], b[|b| - 1 - j], y);
    PartedAt(Crossed(a, b), i, j, x, y);
  }

  ghost predicate SomeParted(heap: seq<State>, x: nat, y: nat) {
    exists i :: 0 <= i < |heap| && Parted(heap[i], x, y)
  }

  lemma NextKeepsParted(pick: seq<State> -> nat, heap: seq<State>, k: nat, x: nat, y: nat)
    requires |heap| >= 2 && Uniform(heap, k) && SomeParted(heap, x, y)
    ensures SomeParted(Next(pick, heap, k), x, y)
  {
    hide Parted, MergeStates, StateLess, Chosen;
    var n :| 0 <= n < |heap| && Parted(heap[n], x, y);
    var i := Chosen(pick, heap);
    var rest := RemoveAt(heap, i);
    var j := Chosen(pick, rest);
    assert heap[i] in heap && rest[j] in rest;
    var a, b, last := heap[i], rest[j], RemoveAt(rest, j);
    assert Next(pick, heap, k) == last + [MergeStates(a, b)];
    hide Next;
    if n == i || (rest[if n < i then n else n - 1] == heap[n] && (if n < i then n else n - 1) == j) {
      MergeKeepsParted(a, b, x, y);
      assert (last + [MergeStates(a, b)])[|last|] == MergeStates(a, b);
    } else {
      var m := if n < i then n else n - 1;
      assert rest[m] == heap[n];
      assert (last + [MergeStates(a, b)])[if m < j then m else m - 1] == rest[m];
    }
  }

  lemma {:induction false} ReduceKeepsParted(pick: seq<State> -> nat, heap: seq<State>, k: nat, x: nat, y: nat)
    requires heap != [] && Uniform(heap, k) && SomeParted(heap, x, y)
    ensures Parted(Reduce(pick, heap, k), x, y)
    decreases |heap|
  {
    hide Parted, Next;
    if |heap| > 1 {
      NextKeepsParted(pick, heap, k, x, y);
      ReduceKeepsParted(pick, Next(pick, heap, k), k, x, y);
    }
  }

  /** The state of a single sample: the sample first, an empty part last, its length as spread. */
  lemma SingleState(lens: seq<nat>, item: Item, k: nat)
    requires k >= 2 && Honests(lens, [item])
    ensures var s := InitState([item], k);
            && |s| == k && s[0].items == [item] && Spread(s) == item.len
  {
    var s := InitState([item], k);
    FreshSorted(lens, [item], k);
    FilledComeFirst(lens, s);
    SingleParts(item, k);
    assert s[0] in s && s[k - 1] in s;
    hide InitState, WellFormed, Filled;
    assert s[0].items != [] && s[k - 1].items == [];
  }

  lemma SingleParts(item: Item, k: nat)
    ensures forall p :: p in InitState([item], k) ==> p == Part(item.len, [item]) || p == EMPTY_PART
  {
    SameMembers(Fresh([item], k), InitState([item], k));
    forall p | p in InitState([item], k) ensures p == Part(item.len, [item]) || p == EMPTY_PART {
      var i := MemberAt(Fresh([item], k), p);
    }
  }

  lemma {:induction false} GroupsOfOne(items: seq<Item>, i: nat)
    requires i < |items|
    ensures |Groups(items, 1)| == |items| && Groups(items, 1)[i] == [items[i]]
    decreases |items|
  {
    if |items| > 1 {
      GroupsOfOne(items[1..], if i > 0 then i - 1 else 0);
    }
  }

  /** A state that holds sample x alone. */
  ghost predicate Holds(lens: seq<nat>, k: nat, s: State, x: nat) {
    && x < |lens| && |s| == k >= 2
    && s[0].items == [Item(x, lens[x])] && Spread(s) == lens[x]
  }

  /** owners[i] is the only sample of heap[i], and every sample owns one state. */
  ghost predicate Owned(lens: seq<nat>, k: nat, heap: seq<State>, owners: seq<nat>) {
    && |heap| == |owners| && Distinct(owners)
    && forall i :: 0 <= i < |heap| ==> Holds(lens, k, heap[i], owners[i])
  }

  lemma StartOwned(lens: seq<nat>, k: nat)
    requires k >= 2
    ensures Owned(lens, k, InitialHeap(lens, k, false), Indices(Order(lens)))
    ensures IsPermutation(Indices(Order(lens)), |lens|)
  {
    var heap, order := InitialHeap(lens, k, false), Order(lens);
    OrderFacts(lens);
    PermutationIsBijective(Indices(order), |lens|);
    if lens == [] { assert Groups(order, 1) == []; }
    hide Order, InitialHeap, Holds, Honests, Ascending;
    forall i | 0 <= i < |lens| ensures |heap| == |lens| && Holds(lens, k, heap[i], Indices(order)[i]) {
      StartsWith(lens, k, i);
    }
  }

  /** The i-th state of the start holds the i-th sample of the sorted order. */
  lemma StartsWith(lens: seq<nat>, k: nat, i: nat)
    requires k >= 2 && i < |lens|
    ensures |InitialHeap(lens, k, false)| == |lens|
    ensures Holds(lens, k, InitialHeap(lens, k, false)[i], Order(lens)[i].idx)
  {
    var order := Order(lens);
    OrderFacts(lens);
    assert order[i] in order;
    GroupsOfOne(order, i);
    SingleState(lens, order[i], k);
    hide Order, Holds, Groups, InitState;
  }

  /** The state of the longest sample is popped first. */
  lemma LongestIsPopped(pick: seq<State> -> nat, lens: seq<nat>, k: nat, heap: seq<State>, owners: seq<nat>, x: nat)
    requires PopsLeast(pick) && Owned(lens, k, heap, owners) && x in owners && Uniform(heap, k)
    requires forall z :: z in owners && z != x && z < |lens| && x < |lens| ==> lens[z] < lens[x]
    ensures heap != [] && owners[Chosen(pick, heap)] == x
  {
    var m := MemberAt(owners, x);
    hide PopsLeast, Spread, StateLess;
    var c := Chosen(pick, heap);
    ChosenIsLeast(pick, heap, k);
    assert Holds(lens, k, heap[m], x) && Holds(lens, k, heap[c], owners[c]);
    if owners[c] != x {
      assert owners[c] in owners;
      WiderIsLess(heap[m], heap[c]);
    }
  }

  lemma WiderIsLess(a: State, b: State)
    requires a != [] && b != [] && Spread(a) > Spread(b)
    ensures StateLess(a, b)
  {
  }

  lemma RemoveOwned(lens: seq<nat>, k: nat, heap: seq<State>, owners: seq<nat>, i: nat)
    requires Owned(lens, k, heap, owners) && i < |heap|
    ensures Owned(lens, k, RemoveAt(heap, i), RemoveAt(owners, i))
    ensures forall z :: z in RemoveAt(owners, i) <==> z in owners && z != owners[i]
  {
    hide Holds;
    var rest := RemoveAt(owners, i);
    forall z | z in owners && z != owners[i] ensures z in rest {
      var m := MemberAt(owners, z);
      assert rest[if m < i then m else m - 1] == z;
    }
  }

  /** Sample x is longer than every other sample but those listed. */
  ghost predicate LongerThanRest(lens: seq<nat>, x: nat, but: set<nat>) {
    x < |lens| && forall z: nat :: z < |lens| && z != x && z !in but ==> lens[z] < lens[x]
  }

  /** The first round pops the longest sample and then the next longest. */
  lemma FirstRound(pick: seq<State> -> nat, lens: seq<nat>, k: nat, x: nat, y: nat)
    requires PopsLeast(pick) && k >= 2 && x != y
    requires LongerThanRest(lens, x, {}) && LongerThanRest(lens, y, {x})
    ensures var heap := InitialHeap(lens, k, false);
            && |heap| >= 2
            && var i := Chosen(pick, heap);
               var rest := RemoveAt(heap, i);
               var j := Chosen(pick, rest);
               Holds(lens, k, heap[i], x) && Holds(lens, k, rest[j], y)
  {
    StartOwned(lens, k);
    PermutationIsBijective(Indices(Order(lens)), |lens|);
    FirstTwo(pick, lens, k, InitialHeap(lens, k, false), Indices(Order(lens)), x, y);
  }

  lemma FirstTwo(pick: seq<State> -> nat, lens: seq<nat>, k: nat, heap: seq<State>, owners: seq<nat>, x: nat, y: nat)
    requires PopsLeast(pick) && Owned(lens, k, heap, owners) && Uniform(heap, k) && x != y
    requires LongerThanRest(lens, x, {}) && LongerThanRest(lens, y, {x})
    requires forall z: nat :: z in owners <==> z < |lens|
    ensures |heap| >= 2
    ensures var i := Chosen(pick, heap);
            var rest := RemoveAt(heap, i);
            Holds(lens, k, heap[i], x) && Holds(lens, k, rest[Chosen(pick, rest)], y)
  {
    hide PopsLeast, Holds, Chosen, RemoveAt;
    LongestIsPopped(pick, lens, k, heap, owners, x);
    var i := Chosen(pick, heap);
    var rest, others := RemoveAt(heap, i), RemoveAt(owners, i);
    RemoveOwned(lens, k, heap, owners, i);
    LongestIsPopped(pick, lens, k, rest, others, y);
  }

  /**
    The two longest samples, when no other sample is as long, never share a part: the first round
    puts them into different parts of one state, and no later merge brings them together.
   */
  lemma TwoLongestApart(pick: seq<State> -> nat, lens: seq<nat>, k: nat, x: nat, y: nat) returns (i: nat, j: nat)
    requires PopsLeast(pick) && k >= 2 && x != y
    requires LongerThanRest(lens, x, {}) && LongerThanRest(lens, y, {x})
    ensures var parts := PartitionBy(pick, lens, k, false);
            i < |parts| && j < |parts| && i != j && x in parts[i] && y in parts[j]
  {
    var heap := InitialHeap(lens, k, false);
    FirstRound(pick, lens, k, x, y);
    var p := Chosen(pick, heap);
    var rest := RemoveAt(heap, p);
    var q := Chosen(pick, rest);
    var next := Next(pick, heap, k);
    assert next[|heap| - 2] == MergeStates(heap[p], rest[q]);
    assert x in Indices(heap[p][0].items) && y in Indices(rest[q][0].items);
    hide MergeStates, InitialHeap, Next, PopsLeast, LongerThanRest, Parted, Indices;
    CrossedParted(heap[p], rest[q], 0, k - 1, x, y);
    MergeSorts(heap[p], rest[q]);
    SortKeepsParted(Crossed(heap[p], rest[q]), x, y);
    assert SomeParted(next, x, y);
    ReduceKeepsParted(pick, next, k, x, y);
    i, j := PartedWhere(Reduce(pick, next, k), x, y);
  }
}
