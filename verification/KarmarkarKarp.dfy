/**
  The k-way largest-differencing partitioner (karmarkar_karp and
  get_seqlen_balanced_partitions) on values: what a run computes and what every
  run guarantees. The heap of mutable states is in KarmarkarKarpObjects.
 */
module KarmarkarKarp {
  import opened Arithmetic
  import opened Sequences

  datatype Item = Item(idx: nat, len: nat)

  /** One candidate part: its items in arrival order and their running sum. */
  datatype Part = Part(sum: nat, items: seq<Item>)

  /** k parts, heaviest first. */
  type State = seq<Part>

  const EMPTY_PART := Part(0, [])

  // ----- orders --------------------------------------------------------------

  predicate ItemLess(a: Item, b: Item) {
    a.idx < b.idx || (a.idx == b.idx && a.len < b.len)
  }

  /** Python's lexicographic order on lists of (index, length) pairs. */
  predicate ItemsLess(a: seq<Item>, b: seq<Item>) {
    b != [] && (a == [] || ItemLess(a[0], b[0]) || (a[0] == b[0] && ItemsLess(a[1..], b[1..])))
  }

  /** Set.__lt__: by sum, then by number of items, then by the items. */
  predicate PartLess(a: Part, b: Part) {
    if a.sum != b.sum then a.sum < b.sum
    else if |a.items| != |b.items| then |a.items| < |b.items|
    else ItemsLess(a.items, b.items)
  }

  /** The order of sorted(..., reverse=True). */
  predicate Heavier(a: Part, b: Part) {
    PartLess(b, a)
  }

  /** sorted() on (length, index) pairs. */
  predicate ShorterItem(a: Item, b: Item) {
    a.len < b.len || (a.len == b.len && a.idx < b.idx)
  }

  lemma {:induction false} ItemsLessTransitive(a: seq<Item>, b: seq<Item>, c: seq<Item>)
    requires ItemsLess(a, b) && ItemsLess(b, c)
    ensures ItemsLess(a, c)
  {
    if a != [] && a[0] == b[0] && b[0] == c[0] {
      ItemsLessTransitive(a[1..], b[1..], c[1..]);
    }
  }

  lemma {:induction false} ItemsLessTotal(a: seq<Item>, b: seq<Item>)
    ensures !ItemsLess(a, a)
    ensures ItemsLess(a, b) || ItemsLess(b, a) || a == b
    ensures !(ItemsLess(a, b) && ItemsLess(b, a))
  {
    if a != [] && b != [] {
      ItemsLessTotal(a[1..], b[1..]);
      assert a == [a[0]] + a[1..] && b == [b[0]] + b[1..];
    } else if a != [] {
      ItemsLessTotal(a[1..], b);
    }
  }

  /** Two parts that neither precedes the other are the same part. */
  lemma PartLessTotal(a: Part, b: Part)
    ensures !PartLess(a, b) && !PartLess(b, a) <==> a == b
    ensures !(PartLess(a, b) && PartLess(b, a))
  {
    ItemsLessTotal(a.items, b.items);
  }

  lemma PartLessTransitive(a: Part, b: Part, c: Part)
    requires PartLess(a, b) && PartLess(b, c)
    ensures PartLess(a, c)
  {
    if a.sum == b.sum == c.sum && |a.items| == |b.items| == |c.items| {
      ItemsLessTransitive(a.items, b.items, c.items);
    }
  }

  /**
    The order spelled out: the smaller sum first, then fewer items, then the first position at
    which the items differ, by index.
   */
  lemma PartLessMeans(a: Part, b: Part)
    ensures PartLess(a, b)
        <==> || a.sum < b.sum
             || (a.sum == b.sum && |a.items| < |b.items|)
             || (a.sum == b.sum && |a.items| == |b.items| && exists p: nat :: FirstDifference(a.items, b.items, p))
  {
    if |a.items| == |b.items| { ItemsLessMeans(a.items, b.items); }
  }

  /** The lists agree before position p, where a's item has the smaller index, or equal index and length. */
  ghost predicate FirstDifference(a: seq<Item>, b: seq<Item>, p: nat) {
    && p < |a| && p < |b| && (forall q :: 0 <= q < p ==> a[q] == b[q])
    && (a[p].idx < b[p].idx || (a[p].idx == b[p].idx && a[p].len < b[p].len))
  }

  lemma {:induction false} ItemsLessMeans(a: seq<Item>, b: seq<Item>)
    requires |a| == |b|
    ensures ItemsLess(a, b) <==> exists p: nat :: FirstDifference(a, b, p)
  {
    if a != [] {
      ItemsLessMeans(a[1..], b[1..]);
      if ItemLess(a[0], b[0]) { assert FirstDifference(a, b, 0); }
      if p: nat :| FirstDifference(a[1..], b[1..], p) {
        forall q | 0 <= q < p + 1 && a[0] == b[0] ensures a[q] == b[q] {
          assert q > 0 ==> a[1..][q - 1] == b[1..][q - 1];
        }
        assert a[0] == b[0] ==> FirstDifference(a, b, p + 1);
      }
      if p: nat :| FirstDifference(a, b, p) {
        if p > 0 {
          forall q | 0 <= q < p - 1 ensures a[1..][q] == b[1..][q] { assert a[q + 1] == b[q + 1]; }
          assert FirstDifference(a[1..], b[1..], p - 1);
        }
      }
    }
  }

  lemma HeavierIsOrder()
    ensures StrictWeakOrder(Heavier)
  {
    forall x, y ensures Heavier(x, y) ==> !Heavier(y, x) {
      PartLessTotal(x, y);
    }
    forall x, y, z | !Heavier(y, x) && !Heavier(z, y) ensures !Heavier(z, x) {
      PartLessTotal(x, y);
      PartLessTotal(y, z);
      if Heavier(z, x) {
        if x != y { PartLessTransitive(y, x, z); }
      }
    }
  }

  // ----- states ----------------------------------------------------------------

  function Indices(items: seq<Item>): (r: seq<nat>)
    ensures |r| == |items|
    ensures forall i :: 0 <= i < |r| ==> r[i] == items[i].idx
  {
    seq(|items|, i requires 0 <= i < |items| => items[i].idx)
  }

  function Total(items: seq<Item>): nat {
    if items == [] then 0 else items[0].len + Total(items[1..])
  }

  /** Slot i of a fresh state before it is sorted. */
  function FreshPart(items: seq<Item>, i: nat): Part {
    if i < |items| then Part(items[i].len, [items[i]]) else EMPTY_PART
  }

  function InitState(items: seq<Item>, k: nat): (s: State)
    ensures |s| == k
  {
    Sort(Heavier, Fresh(items, k))
  }

  function MergeParts(a: Part, b: Part): Part {
    Part(a.sum + Total(b.items), a.items + b.items)
  }

  /** Heaviest joins lightest, second heaviest joins second lightest, and so on. */
  function Crossed(a: State, b: State): (c: State)
    requires |a| == |b|
    ensures |c| == |a|
    ensures forall i :: 0 <= i < |c| ==> c[i] == MergeParts(a[i], b[|b| - 1 - i])
  {
    seq(|a|, i requires 0 <= i < |a| => MergeParts(a[i], b[|b| - 1 - i]))
  }

  function MergeStates(a: State, b: State): (c: State)
    requires |a| == |b|
    ensures |c| == |a|
  {
    Sort(Heavier, Crossed(a, b))
  }

  function Spread(s: State): int {
    if s == [] then 0 else s[0].sum - s[|s| - 1].sum
  }

  /** State.__lt__: the widest spread first, then the heaviest leading part. */
  predicate StateLess(a: State, b: State) {
    a != [] && b != [] &&
    if Spread(a) != Spread(b) then Spread(a) > Spread(b) else Heavier(a[0], b[0])
  }

  // ----- runs -------------------------------------------------------------------

  ghost predicate Uniform(heap: seq<State>, k: nat) {
    forall s :: s in heap ==> |s| == k
  }

  function RemoveAt<T>(s: seq<T>, i: nat): (r: seq<T>)
    requires i < |s|
    ensures |r| == |s| - 1
    ensures forall x :: x in r ==> x in s
  {
    s[..i] + s[i + 1..]
  }

  /** The position a popping rule names, or 0 if it names none. */
  function Chosen(pick: seq<State> -> nat, heap: seq<State>): (i: nat)
    requires heap != []
    ensures i < |heap|
  {
    if pick(heap) < |heap| then pick(heap) else 0
  }

  /** One round: two states are popped, the second is folded into the first, which is pushed back. */
  function Next(pick: seq<State> -> nat, heap: seq<State>, ghost k: nat): (next: seq<State>)
    requires |heap| >= 2 && Uniform(heap, k)
    ensures |next| == |heap| - 1 && Uniform(next, k)
  {
    var i := Chosen(pick, heap);
    var rest := RemoveAt(heap, i);
    var j := Chosen(pick, rest);
    RemoveAt(rest, j) + [MergeStates(heap[i], rest[j])]
  }

  /** The heap loop with an arbitrary rule `pick` for which state comes off next. */
  function Reduce(pick: seq<State> -> nat, heap: seq<State>, ghost k: nat): (s: State)
    requires heap != [] && Uniform(heap, k)
    decreases |heap|
  {
    if |heap| == 1 then heap[0] else Reduce(pick, Next(pick, heap, k), k)
  }

  // ----- one merge ---------------------------------------------------------------

  /** A part that tells the truth about the samples it holds. */
  ghost predicate Honest(lens: seq<nat>, p: Part) {
    && p.sum == Load(lens, Indices(p.items))
    && forall it :: it in p.items ==> it.idx < |lens| && it.len == lens[it.idx]
  }

  ghost predicate WellFormed(lens: seq<nat>, k: nat, s: State) {
    && |s| == k
    && Sorted(Heavier, s)
    && forall p :: p in s ==> Honest(lens, p)
  }

  lemma {:induction false} HonestTotal(lens: seq<nat>, items: seq<Item>)
    requires forall it :: it in items ==> it.idx < |lens| && it.len == lens[it.idx]
    ensures Total(items) == Load(lens, Indices(items))
  {
    if items != [] {
      HonestTotal(lens, items[1..]);
      assert Indices(items)[1..] == Indices(items[1..]);
    }
  }

  lemma MergePartsHonest(lens: seq<nat>, a: Part, b: Part)
    requires Honest(lens, a) && Honest(lens, b)
    ensures Honest(lens, MergeParts(a, b))
    ensures MergeParts(a, b).sum == a.sum + b.sum
    ensures Indices(MergeParts(a, b).items) == Indices(a.items) + Indices(b.items)
  {
    HonestTotal(lens, b.items);
    assert Indices(a.items + b.items) == Indices(a.items) + Indices(b.items);
    LoadConcat(lens, Indices(a.items), Indices(b.items));
  }

  lemma MergeWellFormed(lens: seq<nat>, k: nat, a: State, b: State)
    requires WellFormed(lens, k, a) && WellFormed(lens, k, b)
    ensures WellFormed(lens, k, MergeStates(a, b))
    ensures forall i :: 0 <= i < k ==> Honest(lens, Crossed(a, b)[i])
    ensures forall i :: 0 <= i < k ==> Crossed(a, b)[i].sum == a[i].sum + b[k - 1 - i].sum
  {
    var c := Crossed(a, b);
    forall i | 0 <= i < k ensures Honest(lens, c[i]) && c[i].sum == a[i].sum + b[k - 1 - i].sum {
      assert a[i] in a && b[k - 1 - i] in b;
      MergePartsHonest(lens, a[i], b[k - 1 - i]);
    }
    hide Honest, Heavier;
    HeavierIsOrder();
    SortSorts(Heavier, c);
    SameMembers(c, MergeStates(a, b));
  }

  lemma SortedSums(s: State)
    requires Sorted(Heavier, s)
    ensures forall i, j :: 0 <= i <= j < |s| ==> s[i].sum >= s[j].sum
  {
    forall i, j | 0 <= i < j < |s| ensures s[i].sum >= s[j].sum {
      assert !Heavier(s[j], s[i]);
    }
  }

  lemma CrossedGap(lens: seq<nat>, k: nat, a: State, b: State, i: nat, j: nat)
    requires WellFormed(lens, k, a) && WellFormed(lens, k, b) && i < k && j < k
    ensures Crossed(a, b)[i].sum - Crossed(a, b)[j].sum <= Max(Spread(a), Spread(b))
  {
    MergeWellFormed(lens, k, a, b);
    SortedSums(a);
    SortedSums(b);
    assert i <= j ==> a[i].sum - a[j].sum <= Spread(a) && b[k - 1 - i].sum <= b[k - 1 - j].sum;
    assert j <= i ==> a[i].sum <= a[j].sum && b[k - 1 - i].sum - b[k - 1 - j].sum <= Spread(b);
  }

  lemma MemberAt<T>(s: seq<T>, x: T) returns (i: nat)
    requires x in s
    ensures i < |s| && s[i] == x
  {
    i :| i < |s| && s[i] == x;
  }

  /** The differencing step: merging never widens the wider of the two spreads. */
  lemma MergeSpread(lens: seq<nat>, k: nat, a: State, b: State)
    requires k > 0 && WellFormed(lens, k, a) && WellFormed(lens, k, b)
    ensures Spread(MergeStates(a, b)) <= Max(Spread(a), Spread(b))
  {
    var m := MergeStates(a, b);
    SameMembers(Crossed(a, b), m);
    var i := MemberAt(Crossed(a, b), m[0]);
    var j := MemberAt(Crossed(a, b), m[k - 1]);
    CrossedGap(lens, k, a, b, i, j);
  }

  // ----- indices are conserved ------------------------------------------------------

  function Bag(s: State): multiset<nat> {
    if s == [] then multiset{} else multiset(Indices(s[0].items)) + Bag(s[1..])
  }

  function HeapBag(heap: seq<State>): multiset<nat> {
    if heap == [] then multiset{} else Bag(heap[0]) + HeapBag(heap[1..])
  }

  lemma {:induction false} InsertBag(p: Part, s: State)
    ensures Bag(Insert(Heavier, p, s)) == multiset(Indices(p.items)) + Bag(s)
  {
    if s != [] && Heavier(s[0], p) {
      InsertBag(p, s[1..]);
    }
  }

  lemma {:induction false} SortBag(s: State)
    ensures Bag(Sort(Heavier, s)) == Bag(s)
  {
    if s != [] {
      SortBag(s[1..]);
      InsertBag(s[0], Sort(Heavier, s[1..]));
    }
  }

  lemma {:induction false} BagAppend(s: State, p: Part)
    ensures Bag(s + [p]) == Bag(s) + multiset(Indices(p.items))
  {
    if s == [] {
      assert s + [p] == [p];
    } else {
      assert (s + [p])[1..] == s[1..] + [p];
      BagAppend(s[1..], p);
    }
  }

  lemma {:induction false} CrossedBag(a: State, b: State)
    requires |a| == |b|
    ensures Bag(Crossed(a, b)) == Bag(a) + Bag(b)
  {
    if a != [] {
      var k := |a|;
      var b', last := b[..k - 1], b[k - 1];
      CrossedBag(a[1..], b');
      CrossedTail(a, b);
      assert b == b' + [last];
      BagAppend(b', last);
      MergedIndices(a[0], last);
    }
  }

  lemma CrossedTail(a: State, b: State)
    requires |a| == |b| > 0
    ensures Crossed(a, b)[0] == MergeParts(a[0], b[|b| - 1])
    ensures Crossed(a, b)[1..] == Crossed(a[1..], b[..|b| - 1])
  {
  }

  lemma MergedIndices(a: Part, b: Part)
    ensures multiset(Indices(MergeParts(a, b).items)) == multiset(Indices(a.items)) + multiset(Indices(b.items))
  {
    assert Indices(a.items + b.items) == Indices(a.items) + Indices(b.items);
  }

  lemma {:induction false} HeapBagConcat(g: seq<State>, h: seq<State>)
    ensures HeapBag(g + h) == HeapBag(g) + HeapBag(h)
  {
    if g == [] {
      assert g + h == h;
    } else {
      assert (g + h)[1..] == g[1..] + h;
      HeapBagConcat(g[1..], h);
    }
  }

  lemma HeapBagCons(s: State, heap: seq<State>)
    ensures HeapBag([s] + heap) == Bag(s) + HeapBag(heap)
  {
    assert ([s] + heap)[1..] == heap;
  }

  lemma Associative<T>(x: multiset<T>, y: multiset<T>, z: multiset<T>)
    ensures x + (y + z) == (x + y) + z
  {
  }

  lemma {:induction false} HeapBagRemove(heap: seq<State>, i: nat)
    requires i < |heap|
    ensures HeapBag(heap) == HeapBag(RemoveAt(heap, i)) + Bag(heap[i])
  {
    var tail := heap[1..];
    if i == 0 {
      assert RemoveAt(heap, 0) == tail;
    } else {
      var rest := RemoveAt(tail, i - 1);
      HeapBagRemove(tail, i - 1);
      HeapBagCons(heap[0], rest);
      assert RemoveAt(heap, i) == [heap[0]] + rest;
      assert tail[i - 1] == heap[i];
      var x, y, z := Bag(heap[0]), HeapBag(rest), Bag(heap[i]);
      Associative(x, y, z);
    }
  }

  // ----- non-empty parts ---------------------------------------------------------------

  function Filled(s: State): nat {
    if s == [] then 0 else (if s[0].items != [] then 1 else 0) + Filled(s[1..])
  }

  lemma {:induction false} InsertFilled(p: Part, s: State)
    ensures Filled(Insert(Heavier, p, s)) == (if p.items != [] then 1 else 0) + Filled(s)
  {
    if s != [] && Heavier(s[0], p) {
      InsertFilled(p, s[1..]);
    }
  }

  lemma {:induction false} SortFilled(s: State)
    ensures Filled(Sort(Heavier, s)) == Filled(s)
  {
    if s != [] {
      SortFilled(s[1..]);
      InsertFilled(s[0], Sort(Heavier, s[1..]));
    }
  }

  /** If exactly the slots below x and from y on are filled, their number is known. */
  lemma {:induction false} FilledEnds(s: State, x: nat, y: nat)
    requires x <= |s| && y <= |s|
    requires forall i :: 0 <= i < |s| ==> (s[i].items != [] <==> i < x || i >= y)
    ensures Filled(s) == if x >= y then |s| else x + |s| - y
  {
    if s != [] {
      var t := s[1..];
      assert forall i :: 0 <= i < |t| ==> t[i] == s[i + 1];
      FilledEnds(t, if x > 0 then x - 1 else 0, if y > 0 then y - 1 else 0);
    }
  }

  /**
    In a sorted state the empty parts come last. Equal sums do not upset this,
    because among them the order puts the part with more items first.
   */
  lemma {:induction false} FilledComeFirst(lens: seq<nat>, s: State)
    requires Sorted(Heavier, s) && forall p :: p in s ==> Honest(lens, p)
    ensures Filled(s) <= |s|
    ensures forall i :: 0 <= i < |s| ==> (s[i].items != [] <==> i < Filled(s))
  {
    if s != [] {
      var t := s[1..];
      assert forall i :: 0 <= i < |t| ==> t[i] == s[i + 1];
      FilledComeFirst(lens, t);
      assert s[0] in s && Honest(lens, s[0]);
    }
  }

  /** No slot is wasted: as many parts are non-empty as k and the item count allow. */
  ghost predicate Used(k: nat, s: State) {
    Filled(s) == Min(k, |Bag(s)|)
  }

  lemma CrossedFilled(a: State, b: State, x: nat, y: nat)
    requires |a| == |b| && x <= |a| && y <= |b|
    requires forall i :: 0 <= i < |a| ==> (a[i].items != [] <==> i < x)
    requires forall i :: 0 <= i < |b| ==> (b[i].items != [] <==> i < y)
    ensures Filled(Crossed(a, b)) == Min(|a|, x + y)
  {
    FilledEnds(Crossed(a, b), x, |b| - y);
  }

  lemma MergedFilled(a: State, b: State)
    requires |a| == |b|
    ensures Filled(MergeStates(a, b)) == Filled(Crossed(a, b))
  {
    SortFilled(Crossed(a, b));
  }

  lemma FilledPrefix(lens: seq<nat>, k: nat, s: State)
    requires WellFormed(lens, k, s)
    ensures |s| == k && Filled(s) <= k
    ensures forall i :: 0 <= i < |s| ==> (s[i].items != [] <==> i < Filled(s))
  {
    FilledComeFirst(lens, s);
  }

  lemma MergeFilled(lens: seq<nat>, k: nat, a: State, b: State)
    requires WellFormed(lens, k, a) && WellFormed(lens, k, b)
    ensures |a| == |b| && Filled(MergeStates(a, b)) == Min(k, Filled(a) + Filled(b))
  {
    hide *;
    FilledPrefix(lens, k, a);
    FilledPrefix(lens, k, b);
    MergedFilled(a, b);
    CrossedFilled(a, b, Filled(a), Filled(b));
  }

  lemma MinAdd(k: nat, x: nat, y: nat)
    ensures Min(k, Min(k, x) + Min(k, y)) == Min(k, x + y)
  {
  }

  lemma MergeBag(a: State, b: State)
    requires |a| == |b|
    ensures Bag(MergeStates(a, b)) == Bag(a) + Bag(b)
  {
    CrossedBag(a, b);
    SortBag(Crossed(a, b));
  }

  lemma MergeUsed(lens: seq<nat>, k: nat, a: State, b: State)
    requires WellFormed(lens, k, a) && WellFormed(lens, k, b) && Used(k, a) && Used(k, b)
    ensures Used(k, MergeStates(a, b))
    ensures Bag(MergeStates(a, b)) == Bag(a) + Bag(b)
  {
    hide *;
    UsedMeans(lens, k, a);
    UsedMeans(lens, k, b);
    MergeFilled(lens, k, a, b);
    MergeBag(a, b);
    MinAdd(k, |Bag(a)|, |Bag(b)|);
    MergeWellFormed(lens, k, a, b);
    UsedMeans(lens, k, MergeStates(a, b));
  }

  lemma UsedMeans(lens: seq<nat>, k: nat, s: State)
    requires WellFormed(lens, k, s)
    ensures |s| == k
    ensures Used(k, s) <==> Filled(s) == Min(k, |Bag(s)|)
  {
  }

  // ----- equal part sizes -----------------------------------------------------------------

  /** Every part holds m items. */
  ghost predicate EvenParts(s: State, m: nat) {
    forall p :: p in s ==> |p.items| == m
  }

  lemma MergeEven(a: State, b: State, x: nat, y: nat)
    requires |a| == |b| && EvenParts(a, x) && EvenParts(b, y)
    ensures EvenParts(MergeStates(a, b), x + y)
  {
    var c := Crossed(a, b);
    SameMembers(c, MergeStates(a, b));
    forall p | p in c ensures |p.items| == x + y {
      var i := MemberAt(c, p);
      assert a[i] in a && b[|b| - 1 - i] in b;
    }
  }

  lemma {:induction false} EvenBag(s: State, m: nat)
    requires EvenParts(s, m)
    ensures |Bag(s)| == |s| * m
  {
    if s != [] {
      var front := multiset(Indices(s[0].items));
      assert s[0] in s && |front| == m;
      EvenBag(s[1..], m);
      Distribute(|s| - 1, m);
    }
  }

  // ----- whole runs -------------------------------------------------------------------------

  /** What every state on the heap satisfies at every moment of a run. */
  ghost predicate Fine(lens: seq<nat>, k: nat, equalSize: bool, bound: int, s: State) {
    && k > 0
    && WellFormed(lens, k, s)
    && Spread(s) <= bound
    && Used(k, s)
    && (equalSize ==> EvenParts(s, |s[0].items|))
  }

  lemma MergeFine(lens: seq<nat>, k: nat, equalSize: bool, bound: int, a: State, b: State)
    requires Fine(lens, k, equalSize, bound, a) && Fine(lens, k, equalSize, bound, b)
    ensures Fine(lens, k, equalSize, bound, MergeStates(a, b))
    ensures Bag(MergeStates(a, b)) == Bag(a) + Bag(b)
  {
    MergeWellFormed(lens, k, a, b);
    MergeSpread(lens, k, a, b);
    MergeUsed(lens, k, a, b);
    if equalSize {
      MergeEven(a, b, |a[0].items|, |b[0].items|);
      assert MergeStates(a, b)[0] in MergeStates(a, b);
    }
  }

  /** Every state on the heap is fine. */
  ghost predicate AllFine(lens: seq<nat>, k: nat, equalSize: bool, bound: int, heap: seq<State>) {
    forall s :: s in heap ==> Fine(lens, k, equalSize, bound, s)
  }

  lemma NextMembers(pick: seq<State> -> nat, heap: seq<State>, k: nat) returns (a: State, b: State)
    requires |heap| >= 2 && Uniform(heap, k)
    ensures a in heap && b in heap && |a| == |b|
    ensures forall s :: s in Next(pick, heap, k) ==> s in heap || s == MergeStates(a, b)
  {
    hide MergeStates;
    var i := Chosen(pick, heap);
    var rest := RemoveAt(heap, i);
    a, b := heap[i], rest[Chosen(pick, rest)];
  }

  lemma NextFine(
    pick: seq<State> -> nat, heap: seq<State>, lens: seq<nat>, k: nat, equalSize: bool, bound: int)
    requires |heap| >= 2 && Uniform(heap, k) && AllFine(lens, k, equalSize, bound, heap)
    ensures AllFine(lens, k, equalSize, bound, Next(pick, heap, k))
  {
    hide Fine, MergeStates, Next;
    var a, b := NextMembers(pick, heap, k);
    MergeFine(lens, k, equalSize, bound, a, b);
  }

  lemma NextBag(pick: seq<State> -> nat, heap: seq<State>, k: nat)
    requires |heap| >= 2 && Uniform(heap, k)
    ensures HeapBag(Next(pick, heap, k)) == HeapBag(heap)
  {
    var i := Chosen(pick, heap);
    var rest := RemoveAt(heap, i);
    var j := Chosen(pick, rest);
    var last := RemoveAt(rest, j);
    var merged := MergeStates(heap[i], rest[j]);
    assert Next(pick, heap, k) == last + [merged];
    hide *;
    MergeBag(heap[i], rest[j]);
    HeapBagRemove(heap, i);
    HeapBagRemove(rest, j);
    HeapBagConcat(last, [merged]);
    HeapBagOne(merged);
    Associative(HeapBag(last), Bag(rest[j]), Bag(heap[i]));
  }

  /** Whatever order states are popped in, the last state is fine and holds every index. */
  lemma {:induction false} ReduceFine(
    pick: seq<State> -> nat, heap: seq<State>, lens: seq<nat>, k: nat, equalSize: bool, bound: int)
    requires heap != [] && Uniform(heap, k)
    requires AllFine(lens, k, equalSize, bound, heap)
    ensures Fine(lens, k, equalSize, bound, Reduce(pick, heap, k))
    ensures Bag(Reduce(pick, heap, k)) == HeapBag(heap)
    decreases |heap|
  {
    hide Fine, Bag, HeapBag, Next;
    if |heap| == 1 {
      assert heap == [heap[0]] && heap[0] in heap;
      HeapBagOne(heap[0]);
    } else {
      NextFine(pick, heap, lens, k, equalSize, bound);
      NextBag(pick, heap, k);
      ReduceFine(pick, Next(pick, heap, k), lens, k, equalSize, bound);
    }
  }

  lemma HeapBagOne(s: State)
    ensures HeapBag([s]) == Bag(s)
  {
    assert [s][1..] == [];
  }

  // ----- the starting heap ----------------------------------------------------------------------

  function Items(lens: seq<nat>): (r: seq<Item>)
    ensures |r| == |lens|
  {
    seq(|lens|, i requires 0 <= i < |lens| => Item(i, lens[i]))
  }

  /** sorted([(seqlen, i) ...]) */
  function Order(lens: seq<nat>): (r: seq<Item>)
    ensures |r| == |lens|
  {
    Sort(ShorterItem, Items(lens))
  }

  /** `step` consecutive items at a time. */
  function Groups(items: seq<Item>, step: nat): (g: seq<seq<Item>>)
    ensures forall i :: 0 <= i < |g| ==> |g[i]| == step
  {
    if step == 0 || |items| < step then [] else [items[..step]] + Groups(items[step..], step)
  }

  /** One state per sample, or in equal-size mode one per k samples of the sorted order. */
  function StartGroups(lens: seq<nat>, k: nat, equalSize: bool): (g: seq<seq<Item>>)
    ensures forall i :: 0 <= i < |g| ==> |g[i]| == 1 || |g[i]| == k
  {
    Groups(Order(lens), if equalSize then k else 1)
  }

  function InitStates(groups: seq<seq<Item>>, k: nat): (h: seq<State>)
    ensures Uniform(h, k) && |h| == |groups|
    ensures forall i :: 0 <= i < |h| ==> h[i] == InitState(groups[i], k)
  {
    seq(|groups|, i requires 0 <= i < |groups| => InitState(groups[i], k))
  }

  function InitialHeap(lens: seq<nat>, k: nat, equalSize: bool): (h: seq<State>)
    ensures Uniform(h, k)
  {
    InitStates(StartGroups(lens, k, equalSize), k)
  }

  /** Every item describes a sample of `lens`. */
  ghost predicate Honests(lens: seq<nat>, items: seq<Item>) {
    forall it :: it in items ==> it.idx < |lens| && it.len == lens[it.idx]
  }

  lemma FreshHonest(lens: seq<nat>, items: seq<Item>, i: nat)
    requires Honests(lens, items)
    ensures Honest(lens, FreshPart(items, i))
    ensures i < |items| ==> FreshPart(items, i).sum == items[i].len
  {
    if i < |items| {
      assert items[i] in items;
      assert Indices([items[i]]) == [items[i].idx];
      assert Load(lens, [items[i].idx]) == lens[items[i].idx];
    }
  }

  /** The k slots of a fresh state before they are sorted. */
  function Fresh(items: seq<Item>, k: nat): (s: State)
    ensures |s| == k
    ensures forall i :: 0 <= i < k ==> s[i] == FreshPart(items, i)
  {
    seq(k, i requires 0 <= i => FreshPart(items, i))
  }

  lemma FreshCons(items: seq<Item>, k: nat)
    requires k > 0
    ensures Fresh(items, k) == [FreshPart(items, 0)] + Fresh(if items == [] then [] else items[1..], k - 1)
  {
  }

  lemma BagCons(p: Part, s: State)
    ensures Bag([p] + s) == multiset(Indices(p.items)) + Bag(s)
  {
    assert ([p] + s)[1..] == s;
  }

  lemma {:induction false} FreshBag(items: seq<Item>, k: nat)
    requires |items| <= k
    ensures Bag(Fresh(items, k)) == multiset(Indices(items))
  {
    if k > 0 {
      var rest := if items == [] then [] else items[1..];
      FreshCons(items, k);
      BagCons(FreshPart(items, 0), Fresh(rest, k - 1));
      if items != [] {
        assert items == [items[0]] + rest;
        IndicesConcat([items[0]], rest);
      }
      hide Fresh, Bag, Indices;
      FreshBag(rest, k - 1);
    }
  }

  lemma FreshSorted(lens: seq<nat>, items: seq<Item>, k: nat)
    requires Honests(lens, items) && k > 0 && 0 < |items| <= k
    ensures WellFormed(lens, k, InitState(items, k))
    ensures Bag(InitState(items, k)) == multiset(Indices(items))
    ensures Filled(InitState(items, k)) == |items|
  {
    var s, t := Fresh(items, k), InitState(items, k);
    HeavierIsOrder();
    SortSorts(Heavier, s);
    SameMembers(s, t);
    forall p | p in s ensures Honest(lens, p) {
      var i := MemberAt(s, p);
      FreshHonest(lens, items, i);
    }
    SortBag(s);
    FreshBag(items, k);
    SortFilled(s);
    FilledEnds(s, |items|, k);
  }

  /** No fresh slot exceeds another by more than `bound`. */
  ghost predicate WithinBound(items: seq<Item>, k: nat, bound: nat) {
    forall x :: x in items ==>
      && (|items| < k ==> x.len <= bound)
      && forall y :: y in items ==> x.len - y.len <= bound
  }

  lemma FreshSpread(lens: seq<nat>, items: seq<Item>, k: nat, bound: nat)
    requires Honests(lens, items) && k > 0 && 0 < |items| <= k && WithinBound(items, k, bound)
    ensures Spread(InitState(items, k)) <= bound
  {
    var s, t := Fresh(items, k), InitState(items, k);
    SameMembers(s, t);
    var i := MemberAt(s, t[0]);
    var j := MemberAt(s, t[k - 1]);
    hide Fresh, InitState;
    assert i < |items| ==> items[i] in items;
    assert j < |items| ==> items[j] in items;
  }

  lemma InitFine(lens: seq<nat>, items: seq<Item>, k: nat, equalSize: bool, bound: nat)
    requires Honests(lens, items) && k > 0 && 0 < |items| <= k && WithinBound(items, k, bound)
    requires equalSize ==> |items| == k
    ensures Fine(lens, k, equalSize, bound, InitState(items, k))
    ensures Bag(InitState(items, k)) == multiset(Indices(items))
  {
    var t := InitState(items, k);
    FreshSorted(lens, items, k);
    FreshSpread(lens, items, k, bound);
    if equalSize { FreshEven(items); }
    assert |multiset(Indices(items))| == |items|;
    assert t[0] in t;
    hide InitState, Bag, Filled, Spread, Sorted;
  }

  lemma FreshEven(items: seq<Item>)
    ensures EvenParts(InitState(items, |items|), 1)
  {
    var s, t := Fresh(items, |items|), InitState(items, |items|);
    SameMembers(s, t);
    forall p | p in t ensures |p.items| == 1 {
      var x := MemberAt(s, p);
    }
  }

  lemma IndicesConcat(a: seq<Item>, b: seq<Item>)
    ensures Indices(a + b) == Indices(a) + Indices(b)
    ensures multiset(Indices(a + b)) == multiset(Indices(a)) + multiset(Indices(b))
  {
    assert Indices(a + b) == Indices(a) + Indices(b);
  }

  /** The widest length range inside one of the groups. */
  function WidestGroup(groups: seq<seq<Item>>): nat {
    if groups == [] then 0
    else
      var g := groups[0];
      Max(if g == [] then 0 else g[|g| - 1].len - g[0].len, WidestGroup(groups[1..]))
  }

  ghost predicate Ascending(items: seq<Item>) {
    forall i, j :: 0 <= i <= j < |items| ==> items[i].len <= items[j].len
  }

  /** No two items of g differ in length by more than `bound`. */
  ghost predicate RangeWithin(g: seq<Item>, bound: int) {
    forall x, y :: x in g && y in g ==> x.len - y.len <= bound
  }

  lemma AscendingRange(g: seq<Item>)
    requires g != [] && Ascending(g)
    ensures RangeWithin(g, g[|g| - 1].len - g[0].len)
  {
    forall x, y | x in g && y in g ensures x.len - y.len <= g[|g| - 1].len - g[0].len {
      var a := MemberAt(g, x);
      var b := MemberAt(g, y);
    }
  }

  lemma {:induction false} GroupMembers(items: seq<Item>, step: nat, i: nat)
    requires i < |Groups(items, step)|
    ensures forall x :: x in Groups(items, step)[i] ==> x in items
  {
    if i > 0 { GroupMembers(items[step..], step, i - 1); }
  }

  lemma {:induction false} GroupRange(items: seq<Item>, step: nat, i: nat)
    requires i < |Groups(items, step)| && Ascending(items)
    ensures RangeWithin(Groups(items, step)[i], WidestGroup(Groups(items, step)))
  {
    if i > 0 {
      GroupRange(items[step..], step, i - 1);
    } else {
      AscendingRange(items[..step]);
    }
  }

  lemma {:induction false} GroupsConcat(items: seq<Item>, step: nat)
    requires step > 0 && |items| % step == 0
    ensures Concat(Groups(items, step)) == items
    decreases |items|
  {
    DropMultiple(|items|, step);
    if |items| >= step {
      GroupsConcat(items[step..], step);
    }
  }

  lemma InitStateBag(items: seq<Item>, k: nat)
    requires |items| <= k
    ensures Bag(InitState(items, k)) == multiset(Indices(items))
  {
    hide Bag, Fresh;
    SortBag(Fresh(items, k));
    FreshBag(items, k);
  }

  lemma {:induction false} InitBag(groups: seq<seq<Item>>, k: nat)
    requires forall i :: 0 <= i < |groups| ==> |groups[i]| <= k
    ensures HeapBag(InitStates(groups, k)) == multiset(Indices(Concat(groups)))
  {
    if groups != [] {
      var head, tail := groups[0], groups[1..];
      assert InitStates(groups, k) == [InitState(head, k)] + InitStates(tail, k);
      hide Bag, HeapBag, InitState, InitStates;
      InitBag(tail, k);
      InitStateBag(head, k);
      HeapBagCons(InitState(head, k), InitStates(tail, k));
      IndicesConcat(head, Concat(tail));
    }
  }

  // ----- the sorted order ---------------------------------------------------------------------

  lemma ShorterItemIsOrder()
    ensures StrictWeakOrder(ShorterItem)
  {
  }

  lemma IndicesCons(x: Item, items: seq<Item>)
    ensures Indices([x] + items) == [x.idx] + Indices(items)
  {
  }

  lemma {:induction false} SortIndices(items: seq<Item>)
    ensures multiset(Indices(Sort(ShorterItem, items))) == multiset(Indices(items))
  {
    if items != [] {
      hide Indices;
      assert items == [items[0]] + items[1..];
      IndicesCons(items[0], items[1..]);
      SortIndices(items[1..]);
      InsertIndices(items[0], Sort(ShorterItem, items[1..]));
    }
  }

  lemma {:induction false} InsertIndices(x: Item, items: seq<Item>)
    ensures multiset(Indices(Insert(ShorterItem, x, items))) == multiset{x.idx} + multiset(Indices(items))
  {
    hide Indices, ShorterItem;
    if items == [] || !ShorterItem(items[0], x) {
      IndicesCons(x, items);
    } else {
      assert items == [items[0]] + items[1..];
      IndicesCons(items[0], items[1..]);
      IndicesCons(items[0], Insert(ShorterItem, x, items[1..]));
      InsertIndices(x, items[1..]);
    }
  }

  lemma OrderFacts(lens: seq<nat>)
    ensures Honests(lens, Order(lens))
    ensures Ascending(Order(lens))
    ensures IsPermutation(Indices(Order(lens)), |lens|)
    ensures forall i, j :: 0 <= i < j < |lens| && Order(lens)[i].len == Order(lens)[j].len ==>
              Order(lens)[i].idx < Order(lens)[j].idx
  {
    ShorterItemIsOrder();
    SortSorts(ShorterItem, Items(lens));
    SameMembers(Items(lens), Order(lens));
    SortIndices(Items(lens));
    assert Indices(Items(lens)) == Range(|lens|);
    assert Honests(lens, Items(lens));
    PermutationIsBijective(Indices(Order(lens)), |lens|);
    hide Order;
    forall i, j | 0 <= i < j < |lens|
      ensures Order(lens)[i].len <= Order(lens)[j].len
      ensures Order(lens)[i].len == Order(lens)[j].len ==> Order(lens)[i].idx < Order(lens)[j].idx
    {
      assert !ShorterItem(Order(lens)[j], Order(lens)[i]);
      assert Indices(Order(lens))[i] != Indices(Order(lens))[j];
    }
  }

  // ----- the partition ---------------------------------------------------------------------------

  /** How far apart the final part sums may be. */
  function SpreadBound(lens: seq<nat>, k: nat, equalSize: bool): nat {
    if equalSize then WidestGroup(StartGroups(lens, k, true)) else Longest(lens)
  }

  /** get_partitions */
  function PartIndices(s: State): (r: seq<seq<nat>>)
    ensures |r| == |s|
    ensures forall i :: 0 <= i < |s| ==> r[i] == Indices(s[i].items)
  {
    seq(|s|, i requires 0 <= i < |s| => Indices(s[i].items))
  }

  lemma {:induction false} BagIsConcat(s: State)
    ensures Bag(s) == multiset(Concat(PartIndices(s)))
  {
    if s != [] {
      BagIsConcat(s[1..]);
      assert PartIndices(s)[1..] == PartIndices(s[1..]);
    }
  }

  /** What karmarkar_karp asks of its caller; an empty list would leave no state to return. */
  ghost predicate Callable(lens: seq<nat>, k: nat, equalSize: bool) {
    lens != [] && k > 0 && (equalSize ==> |lens| % k == 0)
  }

  lemma StartBag(lens: seq<nat>, k: nat, equalSize: bool)
    requires Callable(lens, k, equalSize)
    ensures InitialHeap(lens, k, equalSize) != []
    ensures HeapBag(InitialHeap(lens, k, equalSize)) == multiset(Range(|lens|))
  {
    var step := if equalSize then k else 1;
    var order, groups := Order(lens), StartGroups(lens, k, equalSize);
    assert groups == Groups(order, step) && InitialHeap(lens, k, equalSize) == InitStates(groups, k);
    OrderFacts(lens);
    GroupsConcat(order, step);
    InitBag(groups, k);
    assert |Concat(groups)| > 0;
  }

  lemma StartGroupFine(lens: seq<nat>, k: nat, equalSize: bool, i: nat)
    requires Callable(lens, k, equalSize) && i < |StartGroups(lens, k, equalSize)|
    ensures Fine(lens, k, equalSize, SpreadBound(lens, k, equalSize), InitState(StartGroups(lens, k, equalSize)[i], k))
  {
    var step := if equalSize then k else 1;
    var order, groups := Order(lens), StartGroups(lens, k, equalSize);
    var bound := SpreadBound(lens, k, equalSize);
    assert groups == Groups(order, step) && |groups[i]| == step && k > 0;
    assert equalSize ==> bound == WidestGroup(groups);
    OrderFacts(lens);
    GroupMembers(order, step, i);
    GroupRange(order, step, i);
    hide WidestGroup, Groups, Order, StartGroups, InitState, Fine, SpreadBound, WithinBound;
    GroupWithin(lens, k, equalSize, groups[i]);
    InitFine(lens, groups[i], k, equalSize, bound);
  }

  lemma StartFine(lens: seq<nat>, k: nat, equalSize: bool)
    requires Callable(lens, k, equalSize)
    ensures AllFine(lens, k, equalSize, SpreadBound(lens, k, equalSize), InitialHeap(lens, k, equalSize))
  {
    hide Fine, SpreadBound, StartGroups, Callable, InitStates;
    forall i | 0 <= i < |StartGroups(lens, k, equalSize)|
      ensures Fine(lens, k, equalSize, SpreadBound(lens, k, equalSize), InitialHeap(lens, k, equalSize)[i])
    {
      StartGroupFine(lens, k, equalSize, i);
    }
  }

  lemma GroupWithin(lens: seq<nat>, k: nat, equalSize: bool, g: seq<Item>)
    requires Honests(lens, g) && |g| == (if equalSize then k else 1)
    requires equalSize ==> RangeWithin(g, SpreadBound(lens, k, true))
    ensures WithinBound(g, k, SpreadBound(lens, k, equalSize))
  {
    if !equalSize {
      LongestIsMax(lens);
      forall x | x in g ensures x.len <= Longest(lens) && x == g[0] {
        assert lens[x.idx] in lens;
      }
    }
  }

  /** What a good partition of the samples into k parts is. */
  ghost predicate GoodParts(lens: seq<nat>, k: nat, equalSize: bool, bound: int, parts: seq<seq<nat>>) {
    && |parts| == k
    && IsPermutation(Concat(parts), |lens|)
    && (forall i, j :: 0 <= i < k && 0 <= j < k ==> Load(lens, parts[i]) - Load(lens, parts[j]) <= bound)
    && (equalSize ==> forall i :: 0 <= i < k ==> k * |parts[i]| == |lens|)
  }

  ghost predicate HeaviestFirst(lens: seq<nat>, parts: seq<seq<nat>>) {
    forall i, j :: 0 <= i <= j < |parts| ==> Load(lens, parts[i]) >= Load(lens, parts[j])
  }

  lemma FineParts(lens: seq<nat>, k: nat, equalSize: bool, bound: int, s: State)
    requires Fine(lens, k, equalSize, bound, s) && Bag(s) == multiset(Range(|lens|))
    ensures GoodParts(lens, k, equalSize, bound, PartIndices(s))
    ensures forall i :: 0 <= i < k ==> (PartIndices(s)[i] != [] <==> i < |lens|)
    ensures HeaviestFirst(lens, PartIndices(s))
  {
    BagIsConcat(s);
    assert |multiset(Range(|lens|))| == |Range(|lens|)| == |lens|;
    SortedSums(s);
    FilledComeFirst(lens, s);
    SumsAreLoads(lens, s);
    if equalSize { EvenBag(s, |s[0].items|); }
    assert forall i :: 0 <= i < k ==> s[i] in s;
    hide Load, Bag, Sorted, Heavier, Honest, Filled;
  }

  lemma SumsAreLoads(lens: seq<nat>, s: State)
    requires forall p :: p in s ==> Honest(lens, p)
    ensures forall i :: 0 <= i < |s| ==> Load(lens, PartIndices(s)[i]) == s[i].sum
  {
    forall i | 0 <= i < |s| ensures Load(lens, PartIndices(s)[i]) == s[i].sum {
      assert s[i] in s;
    }
  }

  /** karmarkar_karp with an arbitrary rule for popping states. */
  function PartitionBy(pick: seq<State> -> nat, lens: seq<nat>, k: nat, equalSize: bool): seq<seq<nat>> {
    var heap := InitialHeap(lens, k, equalSize);
    if heap == [] then [] else PartIndices(Reduce(pick, heap, k))
  }

  /**
    Main theorem, for every rule of popping states: the k parts hold each index
    once, no two of them differ in load by more than the bound, they come heaviest first, exactly
    the first min(k, n) are non-empty, and in equal-size mode each has n / k items.
   */
  lemma PartitionTheorem(pick: seq<State> -> nat, lens: seq<nat>, k: nat, equalSize: bool)
    requires Callable(lens, k, equalSize)
    ensures InitialHeap(lens, k, equalSize) != []
    ensures GoodParts(lens, k, equalSize, SpreadBound(lens, k, equalSize), PartitionBy(pick, lens, k, equalSize))
    ensures forall i :: 0 <= i < k ==> (PartitionBy(pick, lens, k, equalSize)[i] != [] <==> i < |lens|)
    ensures HeaviestFirst(lens, PartitionBy(pick, lens, k, equalSize))
  {
    var heap, bound := InitialHeap(lens, k, equalSize), SpreadBound(lens, k, equalSize);
    StartBag(lens, k, equalSize);
    StartFine(lens, k, equalSize);
    ReduceFine(pick, heap, lens, k, equalSize, bound);
    FineParts(lens, k, equalSize, bound, Reduce(pick, heap, k));
  }

  /** The equal-size bound is never worse than longest minus shortest. */
  lemma {:induction false} GroupBound(lens: seq<nat>, groups: seq<seq<Item>>, lo: nat)
    requires forall i :: 0 <= i < |groups| ==> Honests(lens, groups[i])
    requires forall x :: x in lens ==> lo <= x
    ensures WidestGroup(groups) <= Max(0, Longest(lens) - lo)
  {
    if groups != [] {
      var g := groups[0];
      GroupBound(lens, groups[1..], lo);
      LongestIsMax(lens);
      if g != [] {
        var x, y := g[|g| - 1], g[0];
        assert x in g && y in g;
        assert lens[x.idx] in lens && lens[y.idx] in lens;
      }
    }
  }

  lemma EqualSizeBound(lens: seq<nat>, k: nat, lo: nat)
    requires forall x :: x in lens ==> lo <= x
    ensures SpreadBound(lens, k, true) <= Max(0, Longest(lens) - lo)
  {
    OrderFacts(lens);
    forall i | 0 <= i < |StartGroups(lens, k, true)| ensures Honests(lens, StartGroups(lens, k, true)[i]) {
      GroupMembers(Order(lens), k, i);
    }
    GroupBound(lens, StartGroups(lens, k, true), lo);
  }

  // ----- the order heapq pops in --------------------------------------------------------------------

  /** Where the least state is. */
  function LeastIndex(heap: seq<State>): (i: nat)
    ensures heap != [] ==> i < |heap|
  {
    if |heap| <= 1 then 0
    else
      var n := |heap| - 1;
      var i := LeastIndex(heap[..n]);
      if StateLess(heap[n], heap[i]) then n else i
  }

  /** heappop's rule, as a value to hand to Reduce. */
  function HeapTop(heap: seq<State>): nat { LeastIndex(heap) }

  lemma StateLessTransitive(a: State, b: State, c: State)
    requires a != [] && b != [] && c != []
    ensures !StateLess(b, a) && !StateLess(c, b) ==> !StateLess(c, a)
    ensures StateLess(a, b) ==> !StateLess(b, a)
    ensures !StateLess(a, b) && !StateLess(b, a) ==> a[0] == b[0]
  {
    HeavierIsOrder();
    PartLessTotal(a[0], b[0]);
  }

  /** The rule picks a state that no other state precedes. */
  lemma {:induction false} LeastIndexIsLeast(heap: seq<State>)
    requires heap != [] && forall i :: 0 <= i < |heap| ==> heap[i] != []
    ensures forall j :: 0 <= j < |heap| ==> !StateLess(heap[j], heap[LeastIndex(heap)])
  {
    var n := |heap| - 1;
    StateLessTransitive(heap[n], heap[n], heap[n]);
    if n > 0 {
      var front := heap[..n];
      LeastIndexIsLeast(front);
      var i := LeastIndex(front);
      forall j | 0 <= j < n ensures !StateLess(heap[j], heap[LeastIndex(heap)]) {
        assert !StateLess(front[j], front[i]);
        StateLessTransitive(heap[n], heap[i], heap[j]);
      }
    }
  }

  /** The popped state has the widest gap between its first and its last part, then the heaviest first part. */
  lemma WidestIsPopped(heap: seq<State>, s: State)
    requires heap != [] && (forall i :: 0 <= i < |heap| ==> heap[i] != []) && s in heap
    ensures HeapTop(heap) < |heap|
    ensures var top := heap[HeapTop(heap)];
            var gap, widest := s[0].sum - s[|s| - 1].sum, top[0].sum - top[|top| - 1].sum;
            gap < widest || (gap == widest && !PartLess(top[0], s[0]))
  {
    LeastIndexIsLeast(heap);
    hide LeastIndex, PartLess;
    var j := MemberAt(heap, s);
    assert !StateLess(heap[j], heap[LeastIndex(heap)]);
  }

  lemma {:induction false} InTwoStates(heap: seq<State>, i: nat, j: nat, x: nat)
    requires i < j < |heap| && x in Bag(heap[i]) && x in Bag(heap[j])
    ensures HeapBag(heap)[x] >= 2
  {
    HeapBagRemove(heap, j);
    HeapBagRemove(RemoveAt(heap, j), i);
  }

  /** As long as no sample is on the heap twice, two states never tie. */
  lemma NoTies(lens: seq<nat>, k: nat, equalSize: bool, bound: int, heap: seq<State>, i: nat, j: nat)
    requires AllFine(lens, k, equalSize, bound, heap) && i < j < |heap|
    requires (forall x :: HeapBag(heap)[x] <= 1) && Bag(heap[i]) != multiset{}
    ensures StateLess(heap[i], heap[j]) || StateLess(heap[j], heap[i])
  {
    var a, b := heap[i], heap[j];
    assert Fine(lens, k, equalSize, bound, a) && Fine(lens, k, equalSize, bound, b);
    if !StateLess(a, b) && !StateLess(b, a) {
      StateLessTransitive(a, b, a);
      FilledComeFirst(lens, a);
      var x := a[0].items[0].idx;
      assert x == Indices(a[0].items)[0];
      assert x in Bag(a) && x in Bag(b);
      InTwoStates(heap, i, j, x);
    }
  }

  // ----- get_seqlen_balanced_partitions ------------------------------------------------------------

  predicate Smaller(a: nat, b: nat) { a < b }

  function SortParts(parts: seq<seq<nat>>): (r: seq<seq<nat>>)
    ensures |r| == |parts|
    ensures forall i :: 0 <= i < |r| ==> r[i] == Sort(Smaller, parts[i])
  {
    seq(|parts|, i requires 0 <= i < |parts| => Sort(Smaller, parts[i]))
  }

  /** The partition the library computes: states popped least first, indices ascending. */
  function Balanced(lens: seq<nat>, k: nat, equalSize: bool): (parts: seq<seq<nat>>) {
    SortParts(PartitionBy(HeapTop, lens, k, equalSize))
  }

  lemma {:induction false} SortPartsConcat(parts: seq<seq<nat>>)
    ensures multiset(Concat(SortParts(parts))) == multiset(Concat(parts))
  {
    if parts != [] {
      SortPartsConcat(parts[1..]);
      assert SortParts(parts)[1..] == SortParts(parts[1..]);
    }
  }

  /** Sorting the indices of a part changes neither its contents nor its load. */
  lemma SortedParts(lens: seq<nat>, raw: seq<seq<nat>>)
    ensures forall i :: 0 <= i < |raw| ==>
              var p := SortParts(raw)[i];
              && multiset(p) == multiset(raw[i]) && |p| == |raw[i]|
              && Sorted(Smaller, p) && Load(lens, p) == Load(lens, raw[i])
  {
    forall i | 0 <= i < |raw|
      ensures var p := SortParts(raw)[i];
              && multiset(p) == multiset(raw[i]) && |p| == |raw[i]|
              && Sorted(Smaller, p) && Load(lens, p) == Load(lens, raw[i])
    {
      SortSorts(Smaller, raw[i]);
      LoadOfPermutation(lens, SortParts(raw)[i], raw[i]);
    }
  }

  /**
    With at least k samples: k non-empty ascending parts, each sample in exactly
    one of them, loads within the bound of each other, and equal sizes on request.
   */
  lemma BalancedTheorem(lens: seq<nat>, k: nat, equalSize: bool)
    requires 0 < k <= |lens| && (equalSize ==> |lens| % k == 0)
    ensures GoodParts(lens, k, equalSize, SpreadBound(lens, k, equalSize), Balanced(lens, k, equalSize))
    ensures forall p :: p in Balanced(lens, k, equalSize) ==> p != [] && Sorted(Smaller, p)
    ensures HeaviestFirst(lens, Balanced(lens, k, equalSize))
    ensures forall i :: 0 <= i < k ==>
              multiset(Balanced(lens, k, equalSize)[i]) == multiset(PartitionBy(HeapTop, lens, k, equalSize)[i])
  {
    hide SpreadBound, PartitionBy, Load, Sort;
    PartitionTheorem(HeapTop, lens, k, equalSize);
    var raw := PartitionBy(HeapTop, lens, k, equalSize);
    SortPartsConcat(raw);
    SortedParts(lens, raw);
  }

  // ----- the spread in terms of the lengths alone ----------------------------------------------------

  ghost predicate AscendingLengths(s: seq<nat>) {
    forall i, j :: 0 <= i <= j < |s| ==> s[i] <= s[j]
  }

  /** How far apart the lengths of the c-th k consecutive entries are. */
  function ChunkRange(s: seq<nat>, k: nat, c: nat): int {
    if k > 0 && c * k + k <= |s| then s[c * k + k - 1] as int - s[c * k] as int else 0
  }

  function Lengths(items: seq<Item>): (r: seq<nat>)
    ensures |r| == |items| && forall i :: 0 <= i < |r| ==> r[i] == items[i].len
  {
    seq(|items|, i requires 0 <= i < |items| => items[i].len)
  }

  /** The lengths can be put in ascending order in one way only. */
  lemma {:induction false} OneAscendingOrder(s: seq<nat>, t: seq<nat>)
    requires AscendingLengths(s) && AscendingLengths(t) && multiset(s) == multiset(t)
    ensures s == t
  {
    SameMembers(s, t);
    if s != [] {
      SameHead(s, t);
      TailBag(s);
      TailBag(t);
      assert AscendingLengths(s[1..]) && AscendingLengths(t[1..]);
      hide AscendingLengths;
      OneAscendingOrder(s[1..], t[1..]);
      assert s == [s[0]] + s[1..] && t == [t[0]] + t[1..];
    }
  }

  lemma SameHead(s: seq<nat>, t: seq<nat>)
    requires AscendingLengths(s) && AscendingLengths(t) && s != [] && t != []
    requires forall x :: x in s <==> x in t
    ensures s[0] == t[0]
  {
    assert s[0] in s && t[0] in t;
    var j := MemberAt(t, s[0]);
    var i := MemberAt(s, t[0]);
  }

  lemma TailBag<T>(s: seq<T>)
    requires s != []
    ensures multiset(s[1..]) == multiset(s) - multiset{s[0]}
  {
    assert s == [s[0]] + s[1..];
  }

  lemma OrderLengths(lens: seq<nat>, s: seq<nat>)
    requires AscendingLengths(s) && multiset(s) == multiset(lens)
    ensures Lengths(Order(lens)) == s
  {
    OrderFacts(lens);
    var order := Order(lens);
    GatherAll(lens, Indices(order));
    forall i | 0 <= i < |order| ensures Lengths(order)[i] == lens[Indices(order)[i]] {
      assert order[i] in order;
    }
    assert Lengths(order) == Gather(lens, Indices(order));
    OneAscendingOrder(s, Lengths(order));
  }

  lemma {:induction false} GroupAt(items: seq<Item>, step: nat, c: nat)
    requires c < |Groups(items, step)|
    ensures step > 0 && c * step + step <= |items|
    ensures Groups(items, step)[c] == items[c * step..c * step + step]
  {
    if c > 0 {
      GroupAt(items[step..], step, c - 1);
      Distribute(c - 1, step);
    }
  }

  lemma {:induction false} WidestAtMost(groups: seq<seq<Item>>, b: nat)
    requires forall c: nat :: c < |groups| && groups[c] != [] ==>
               groups[c][|groups[c]| - 1].len - groups[c][0].len <= b
    ensures WidestGroup(groups) <= b
  {
    if groups != [] { WidestAtMost(groups[1..], b); }
  }

  lemma SortedChunksBound(lens: seq<nat>, k: nat, s: seq<nat>, b: nat)
    requires AscendingLengths(s) && multiset(s) == multiset(lens) && forall c: nat :: ChunkRange(s, k, c) <= b
    ensures SpreadBound(lens, k, true) <= b
  {
    OrderLengths(lens, s);
    var order, groups: seq<seq<Item>> := Order(lens), StartGroups(lens, k, true);
    assert groups == Groups(order, k);
    hide Order, StartGroups, WidestGroup, Groups, ChunkRange;
    forall c: nat | c < |groups|
      ensures groups[c] != [] ==> groups[c][|groups[c]| - 1].len - groups[c][0].len <= b
    {
      GroupIsChunk(order, k, c);
      assert ChunkRange(s, k, c) <= b;
    }
    WidestAtMost(groups, b);
  }

  lemma GroupIsChunk(order: seq<Item>, k: nat, c: nat)
    requires c < |Groups(order, k)|
    ensures var g := Groups(order, k)[c];
            g != [] ==> g[|g| - 1].len - g[0].len == ChunkRange(Lengths(order), k, c)
  {
    GroupAt(order, k, c);
    hide Groups;
    var at := c * k;
    assert order[at..at + k] != [] ==> order[at..at + k][k - 1] == order[at + k - 1];
  }

  /** No two parts of the list differ in load by more than b. */
  ghost predicate LoadsWithin(lens: seq<nat>, parts: seq<seq<nat>>, b: int) {
    forall i, j :: 0 <= i < |parts| && 0 <= j < |parts| ==> Load(lens, parts[i]) - Load(lens, parts[j]) <= b
  }

  /**
    How close the loads come, from the lengths alone. In equal-size mode: sort the lengths and cut
    them into chunks of k; the loads differ by no more than the widest chunk. Otherwise they differ
    by no more than the longest length.
   */
  lemma LoadsAreClose(pick: seq<State> -> nat, lens: seq<nat>, k: nat, equalSize: bool, s: seq<nat>, b: nat)
    requires Callable(lens, k, equalSize) && AscendingLengths(s) && multiset(s) == multiset(lens)
    requires if equalSize then forall c: nat :: ChunkRange(s, k, c) <= b else forall x :: x in lens ==> x <= b
    ensures LoadsWithin(lens, PartitionBy(pick, lens, k, equalSize), b)
    ensures k <= |lens| ==> LoadsWithin(lens, Balanced(lens, k, equalSize), b)
  {
    if equalSize {
      SortedChunksBound(lens, k, s, b);
    } else {
      LongestIsMax(lens);
    }
    hide SpreadBound, PartitionBy, Balanced;
    PartitionTheorem(pick, lens, k, equalSize);
    if k <= |lens| { BalancedTheorem(lens, k, equalSize); }
  }

  lemma LoadsAreCloseByLongest(lens: seq<nat>, k: nat, longest: nat)
    requires 0 < k <= |lens| && forall x :: x in lens ==> x <= longest
    ensures LoadsWithin(lens, Balanced(lens, k, false), longest)
  {
    LongestIsMax(lens);
    hide PartitionBy, Balanced;
    BalancedTheorem(lens, k, false);
  }
}
