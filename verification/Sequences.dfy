/**
  Sequence vocabulary shared by the models: a stable sort over an arbitrary
  order, index permutations, and loads (sums of lengths over index lists).
 */
module Sequences {
  import opened Arithmetic

  // ----- stable sorting ---------------------------------------------------

  /** `less` is a strict weak order: what Python's `sorted` expects of `<`. */
  ghost predicate StrictWeakOrder<T(!new)>(less: (T, T) -> bool) {
    && (forall x, y :: less(x, y) ==> !less(y, x))
    && (forall x, y, z :: !less(y, x) && !less(z, y) ==> !less(z, x))
  }

  ghost predicate Sorted<T>(less: (T, T) -> bool, s: seq<T>) {
    forall i, j :: 0 <= i < j < |s| ==> !less(s[j], s[i])
  }

  /** Puts `x` before the first element that is not less than it. */
  function Insert<T>(less: (T, T) -> bool, x: T, s: seq<T>): (r: seq<T>)
    ensures multiset(r) == multiset{x} + multiset(s)
    ensures |r| == |s| + 1
  {
    if s == [] || !less(s[0], x) then
      [x] + s
    else
      assert s == [s[0]] + s[1..];
      [s[0]] + Insert(less, x, s[1..])
  }

  /** Insertion from the right: equal elements keep their order, as in `sorted`. */
  function Sort<T>(less: (T, T) -> bool, s: seq<T>): (r: seq<T>)
    ensures multiset(r) == multiset(s)
    ensures |r| == |s|
  {
    if s == [] then []
    else
      assert s == [s[0]] + s[1..];
      Insert(less, s[0], Sort(less, s[1..]))
  }

  lemma {:induction false} InsertKeepsSorted<T(!new)>(less: (T, T) -> bool, x: T, s: seq<T>)
    requires StrictWeakOrder(less) && Sorted(less, s)
    ensures Sorted(less, Insert(less, x, s))
  {
    if s != [] && less(s[0], x) {
      var r := Insert(less, x, s[1..]);
      InsertKeepsSorted(less, x, s[1..]);
      forall j | 0 <= j < |r| ensures !less(r[j], s[0]) {
        assert r[j] in multiset(r);
        assert r[j] == x || r[j] in s[1..];
      }
    }
  }

  lemma {:induction false} SortSorts<T(!new)>(less: (T, T) -> bool, s: seq<T>)
    requires StrictWeakOrder(less)
    ensures Sorted(less, Sort(less, s))
  {
    if s != [] {
      SortSorts(less, s[1..]);
      InsertKeepsSorted(less, s[0], Sort(less, s[1..]));
    }
  }

  lemma {:induction false} InsertAgrees<T>(f: (T, T) -> bool, g: (T, T) -> bool, x: T, s: seq<T>)
    requires forall y :: y in s ==> (f(y, x) <==> g(y, x))
    ensures Insert(f, x, s) == Insert(g, x, s)
  {
    if s != [] {
      assert s[0] in s;
      forall y | y in s[1..] ensures f(y, x) <==> g(y, x) { assert y in s; }
      InsertAgrees(f, g, x, s[1..]);
    }
  }

  /** Two orders that compare every entry alike with the earlier ones sort alike: what makes a sort stable. */
  lemma {:induction false} SortAgrees<T>(f: (T, T) -> bool, g: (T, T) -> bool, s: seq<T>)
    requires forall i, j :: 0 <= i < j < |s| ==> (f(s[j], s[i]) <==> g(s[j], s[i]))
    ensures Sort(f, s) == Sort(g, s)
  {
    if s != [] {
      var tail := s[1..];
      var sorted := Sort(g, tail);
      AgreeOnTail(f, g, s);
      SortAgrees(f, g, tail);
      hide Insert;
      forall y | y in sorted ensures f(y, s[0]) <==> g(y, s[0]) {
        assert y in multiset(sorted);
        assert y in multiset(tail);
      }
      InsertAgrees(f, g, s[0], sorted);
    }
  }

  lemma AgreeOnTail<T>(f: (T, T) -> bool, g: (T, T) -> bool, s: seq<T>)
    requires s != [] && forall i, j :: 0 <= i < j < |s| ==> (f(s[j], s[i]) <==> g(s[j], s[i]))
    ensures forall i, j :: 0 <= i < j < |s[1..]| ==> (f(s[1..][j], s[1..][i]) <==> g(s[1..][j], s[1..][i]))
    ensures forall y :: y in s[1..] ==> (f(y, s[0]) <==> g(y, s[0]))
  {
    forall i, j | 0 <= i < j < |s[1..]| ensures f(s[1..][j], s[1..][i]) <==> g(s[1..][j], s[1..][i]) {
      assert s[1..][j] == s[j + 1] && s[1..][i] == s[i + 1];
    }
    forall y | y in s[1..] ensures f(y, s[0]) <==> g(y, s[0]) {
      var j :| 0 <= j < |s[1..]| && s[1..][j] == y;
      assert s[j + 1] == y;
    }
  }

  lemma {:induction false} SortOfSorted<T>(less: (T, T) -> bool, s: seq<T>)
    requires Sorted(less, s)
    ensures Sort(less, s) == s
  {
    if s != [] { SortOfSorted(less, s[1..]); }
  }

  lemma SameMembers<T>(a: seq<T>, b: seq<T>)
    requires multiset(a) == multiset(b)
    ensures forall x :: x in a <==> x in b
    ensures |a| == |b|
  {
    forall x ensures x in a <==> x in b {
      assert x in a <==> x in multiset(a);
      assert x in b <==> x in multiset(b);
    }
    assert |multiset(a)| == |a| && |multiset(b)| == |b|;
  }

  ghost predicate Distinct<T>(s: seq<T>) {
    forall i, j :: 0 <= i < j < |s| ==> s[i] != s[j]
  }

  lemma {:induction false} DistinctCounts<T>(s: seq<T>)
    ensures Distinct(s) <==> forall x :: x in s ==> multiset(s)[x] == 1
  {
    if s != [] {
      var t := s[1..];
      assert s == [s[0]] + t;
      DistinctCounts(t);
      if Distinct(s) {
        assert Distinct(t);
        assert s[0] !in t;
      }
      if forall x :: x in s ==> multiset(s)[x] == 1 {
        assert s[0] in s && s[0] !in t;
        forall x | x in t ensures multiset(t)[x] == 1 { assert x in s; }
        assert Distinct(t);
      }
    }
  }

  lemma HeadIsMember<T>(s: seq<T>)
    ensures s != [] ==> s[0] in s
  {
  }

  // ----- flattening and index permutations ---------------------------------

  function Concat<T>(parts: seq<seq<T>>): seq<T> {
    if parts == [] then [] else parts[0] + Concat(parts[1..])
  }

  lemma {:induction false} ConcatSplit<T>(a: seq<seq<T>>, b: seq<seq<T>>)
    ensures Concat(a + b) == Concat(a) + Concat(b)
  {
    if a == [] {
      assert a + b == b;
    } else {
      assert (a + b)[1..] == a[1..] + b;
      ConcatSplit(a[1..], b);
    }
  }

  lemma {:induction false} ConcatMembers<T>(parts: seq<seq<T>>, x: T)
    ensures x in Concat(parts) <==> exists i :: 0 <= i < |parts| && x in parts[i]
  {
    if parts != [] {
      ConcatMembers(parts[1..], x);
      if x in Concat(parts[1..]) {
        var i :| 0 <= i < |parts[1..]| && x in parts[1..][i];
        assert x in parts[i + 1];
      }
      if i :| 0 <= i < |parts| && x in parts[i] {
        assert i > 0 ==> x in parts[1..][i - 1];
      }
    }
  }

  lemma ConcatAround<T>(parts: seq<seq<T>>, i: nat)
    requires i < |parts|
    ensures Concat(parts) == Concat(parts[..i]) + (parts[i] + Concat(parts[i + 1..]))
  {
    ConcatSplit(parts[..i], parts[i..]);
    assert parts == parts[..i] + parts[i..] && parts[i..][1..] == parts[i + 1..];
  }

  lemma ConcatOneMore<T>(parts: seq<seq<T>>, i: nat)
    requires i < |parts|
    ensures Concat(parts[..i + 1]) == Concat(parts[..i]) + parts[i]
  {
    var one := [parts[i]];
    assert parts[..i + 1] == parts[..i] + one;
    ConcatSplit(parts[..i], one);
    assert one[1..] == [];
  }

  /** When no element occurs twice in all the parts together, each is in one part and once. */
  lemma PartsAreDistinct<T>(parts: seq<seq<T>>, i: nat, j: nat)
    requires Distinct(Concat(parts)) && i < |parts| && j < |parts| && i != j
    ensures Distinct(parts[i]) && forall x :: x in parts[i] ==> x !in parts[j]
  {
    ConcatAround(parts, i);
    var front, mine, back := Concat(parts[..i]), parts[i], Concat(parts[i + 1..]);
    DistinctPieces(front, mine, back);
    forall x | x in parts[j] ensures x in front || x in back {
      InOtherPart(parts, i, j, x);
    }
  }

  lemma InOtherPart<T>(parts: seq<seq<T>>, i: nat, j: nat, x: T)
    requires i < |parts| && j < |parts| && i != j && x in parts[j]
    ensures x in Concat(parts[..i]) || x in Concat(parts[i + 1..])
  {
    ConcatMembers(parts[..i], x);
    ConcatMembers(parts[i + 1..], x);
    if j < i { assert x in parts[..i][j]; } else { assert x in parts[i + 1..][j - i - 1]; }
  }

  lemma DistinctPieces<T>(front: seq<T>, mine: seq<T>, back: seq<T>)
    requires Distinct(front + (mine + back))
    ensures Distinct(mine) && forall x :: x in mine ==> x !in front && x !in back
  {
    var s := front + (mine + back);
    forall i | 0 <= i < |mine| ensures s[|front| + i] == mine[i] { }
    forall i | 0 <= i < |back| ensures s[|front| + |mine| + i] == back[i] { }
    forall i | 0 <= i < |front| ensures s[i] == front[i] { }
  }

  lemma DistinctWithout<T>(front: seq<T>, mine: seq<T>, back: seq<T>)
    requires Distinct(front + (mine + back))
    ensures Distinct(front + back)
  {
    var s, r := front + (mine + back), front + back;
    forall i | 0 <= i < |r|
      ensures r[i] == s[if i < |front| then i else i + |mine|]
    {
    }
  }

  /** [0, 1, ..., n-1] */
  function Range(n: nat): (r: seq<nat>) {
    seq(n, i => i)
  }

  lemma RangeMembers(n: nat)
    ensures forall i: nat :: i in Range(n) <==> i < n
  {
    forall i: nat | i < n ensures i in Range(n) { assert Range(n)[i] == i; }
  }

  /** `s` lists each of 0..n-1 exactly once. */
  ghost predicate IsPermutation(s: seq<nat>, n: nat) {
    multiset(s) == multiset(Range(n))
  }

  lemma {:induction false} RangeCounts(n: nat, x: nat)
    ensures multiset(Range(n))[x] == if x < n then 1 else 0
  {
    if n > 0 {
      assert Range(n) == Range(n - 1) + [n - 1];
      RangeCounts(n - 1, x);
    }
  }

  lemma {:induction false} CountTwice<T>(s: seq<T>, i: nat, j: nat)
    requires i < j < |s| && s[i] == s[j]
    ensures multiset(s)[s[i]] >= 2
  {
    assert s == s[..j] + s[j..];
    assert s[i] in s[..j] && s[i] in s[j..];
  }

  /** What a permutation means element by element. */
  lemma PermutationIsBijective(s: seq<nat>, n: nat)
    requires IsPermutation(s, n)
    ensures |s| == n
    ensures forall x: nat :: x in s <==> x < n
    ensures Distinct(s)
  {
    SameMembers(s, Range(n));
    forall x: nat ensures x in s <==> x < n {
      RangeCounts(n, x);
      assert x in s <==> x in Range(n);
      assert x in Range(n) <==> x in multiset(Range(n));
    }
    forall i, j | 0 <= i < j < |s| ensures s[i] != s[j] {
      if s[i] == s[j] {
        CountTwice(s, i, j);
        RangeCounts(n, s[i]);
        assert false;
      }
    }
  }

  // ----- the longest ----------------------------------------------------------

  function Longest(lens: seq<nat>): nat {
    if lens == [] then 0 else Max(lens[0], Longest(lens[1..]))
  }

  lemma {:induction false} LongestIsMax(lens: seq<nat>)
    ensures forall x :: x in lens ==> x <= Longest(lens)
    ensures lens != [] ==> Longest(lens) in lens
  {
    if lens != [] {
      LongestIsMax(lens[1..]);
      assert lens == [lens[0]] + lens[1..];
    }
  }

  // ----- loads -------------------------------------------------------------

  function LenAt(lens: seq<nat>, i: nat): nat {
    if i < |lens| then lens[i] else 0
  }

  /** Total length of the samples that `part` names. */
  function Load(lens: seq<nat>, part: seq<nat>): nat {
    if part == [] then 0 else LenAt(lens, part[0]) + Load(lens, part[1..])
  }

  lemma {:induction false} LoadConcat(lens: seq<nat>, a: seq<nat>, b: seq<nat>)
    ensures Load(lens, a + b) == Load(lens, a) + Load(lens, b)
  {
    if a == [] {
      assert a + b == b;
    } else {
      assert (a + b)[1..] == a[1..] + b;
      LoadConcat(lens, a[1..], b);
    }
  }

  /** A permutation of a non-empty list holds its head somewhere; without it the rests agree. */
  lemma FindHead<T>(a: seq<T>, b: seq<T>) returns (j: nat)
    requires a != [] && multiset(a) == multiset(b)
    ensures j < |b| && b[j] == a[0]
    ensures multiset(a[1..]) == multiset(b[..j] + b[j + 1..])
  {
    SameMembers(a, b);
    var x := a[0];
    assert x in a;
    j :| 0 <= j < |b| && b[j] == x;
    assert b == b[..j] + ([x] + b[j + 1..]);
    assert a == [x] + a[1..];
    assert multiset(a) - multiset{x} == multiset(a[1..]);
    assert multiset(b) - multiset{x} == multiset(b[..j]) + multiset(b[j + 1..]);
  }

  lemma {:induction false} LoadOfPermutation(lens: seq<nat>, a: seq<nat>, b: seq<nat>)
    requires multiset(a) == multiset(b)
    ensures Load(lens, a) == Load(lens, b)
  {
    if a == [] {
      SameMembers(a, b);
    } else {
      var j := FindHead(a, b);
      LoadOfPermutation(lens, a[1..], b[..j] + b[j + 1..]);
      LoadConcat(lens, b[..j], b[j + 1..]);
      LoadConcat(lens, b[..j], [b[j]] + b[j + 1..]);
      assert b == b[..j] + ([b[j]] + b[j + 1..]);
    }
  }

  /** Total length of the samples below n that are in `members`. */
  function LoadIn(lens: seq<nat>, members: set<nat>, n: nat): nat {
    if n == 0 then 0 else LoadIn(lens, members, n - 1) + if n - 1 in members then LenAt(lens, n - 1) else 0
  }

  lemma TakeOut(lens: seq<nat>, part: seq<nat>, x: nat) returns (rest: seq<nat>)
    requires Distinct(part) && x in part
    ensures Distinct(rest) && forall y :: y in rest <==> y in part && y != x
    ensures Load(lens, part) == LenAt(lens, x) + Load(lens, rest)
  {
    hide Distinct;
    var i :| 0 <= i < |part| && part[i] == x;
    var front, back := part[..i], part[i + 1..];
    rest := front + back;
    assert part == front + ([x] + back);
    DistinctPieces(front, [x], back);
    DistinctWithout(front, [x], back);
    LoadConcat(lens, front, [x] + back);
    LoadConcat(lens, [x], back);
    LoadConcat(lens, front, back);
    assert Load(lens, [x]) == LenAt(lens, x) + Load(lens, [x][1..]);
  }

  /** A list without repetition weighs what its members weigh. */
  lemma {:induction false} LoadByMembers(lens: seq<nat>, part: seq<nat>, members: set<nat>, n: nat)
    requires Distinct(part) && forall x :: x in part <==> x in members && x < n
    ensures Load(lens, part) == LoadIn(lens, members, n)
    decreases n
  {
    hide Distinct;
    if n == 0 {
      HeadIsMember(part);
    } else if n - 1 in members {
      var rest := TakeOut(lens, part, n - 1);
      LoadByMembers(lens, rest, members, n - 1);
    } else {
      LoadByMembers(lens, part, members, n - 1);
    }
  }

  function SumLoads(lens: seq<nat>, parts: seq<seq<nat>>): nat {
    if parts == [] then 0 else Load(lens, parts[0]) + SumLoads(lens, parts[1..])
  }

  lemma {:induction false} LoadOfConcat(lens: seq<nat>, parts: seq<seq<nat>>)
    ensures Load(lens, Concat(parts)) == SumLoads(lens, parts)
  {
    if parts != [] {
      LoadOfConcat(lens, parts[1..]);
      LoadConcat(lens, parts[0], Concat(parts[1..]));
    }
  }

  /** However the indices are cut into parts, the part loads add up to the same total. */
  lemma LoadsOfAnyCover(lens: seq<nat>, parts: seq<seq<nat>>)
    requires IsPermutation(Concat(parts), |lens|)
    ensures SumLoads(lens, parts) == Load(lens, Range(|lens|))
  {
    LoadOfConcat(lens, parts);
    LoadOfPermutation(lens, Concat(parts), Range(|lens|));
  }

  // ----- gathering by index -----------------------------------------------------

  predicate InRange(idx: seq<nat>, n: nat) {
    forall i :: 0 <= i < |idx| ==> idx[i] < n
  }

  ghost predicate AllInRange(parts: seq<seq<nat>>, n: nat) {
    forall j :: 0 <= j < |parts| ==> InRange(parts[j], n)
  }

  function Gather<T>(s: seq<T>, idx: seq<nat>): (r: seq<T>)
    requires InRange(idx, |s|)
    ensures |r| == |idx|
    ensures forall i :: 0 <= i < |r| ==> r[i] == s[idx[i]]
  {
    seq(|idx|, i requires 0 <= i < |idx| => s[idx[i]])
  }

  lemma GatherConcat<T>(s: seq<T>, p: seq<nat>, q: seq<nat>)
    requires InRange(p, |s|) && InRange(q, |s|)
    ensures InRange(p + q, |s|) && Gather(s, p + q) == Gather(s, p) + Gather(s, q)
  {
  }

  lemma GatherMiddle<T>(s: seq<T>, front: seq<nat>, x: nat, back: seq<nat>)
    requires InRange(front, |s|) && x < |s| && InRange(back, |s|)
    ensures InRange(front + [x] + back, |s|) && InRange(front + back, |s|)
    ensures multiset(Gather(s, front + [x] + back)) == multiset{s[x]} + multiset(Gather(s, front + back))
  {
    GatherConcat(s, front, [x]);
    GatherConcat(s, front + [x], back);
    GatherConcat(s, front, back);
    assert Gather(s, [x]) == [s[x]];
    hide Gather;
  }

  lemma {:induction false} GatherPermutation<T>(s: seq<T>, p: seq<nat>, q: seq<nat>)
    requires InRange(p, |s|) && InRange(q, |s|) && multiset(p) == multiset(q)
    ensures multiset(Gather(s, p)) == multiset(Gather(s, q))
  {
    if p == [] {
      SameMembers(p, q);
    } else {
      var j := FindHead(p, q);
      var x, rest, front, back := p[0], p[1..], q[..j], q[j + 1..];
      assert InRange(rest, |s|) && InRange(front, |s|) && InRange(back, |s|) && x < |s|;
      assert p == [] + [x] + rest && q == front + [x] + back && [] + rest == rest;
      GatherMiddle(s, [], x, rest);
      GatherMiddle(s, front, x, back);
      hide *;
      GatherPermutation(s, rest, front + back);
    }
  }

  /** Gathering by a permutation only reorders. */
  lemma GatherAll<T>(s: seq<T>, p: seq<nat>)
    requires IsPermutation(p, |s|)
    ensures InRange(p, |s|) && multiset(Gather(s, p)) == multiset(s)
  {
    PermutationIsBijective(p, |s|);
    forall i | 0 <= i < |p| ensures p[i] < |s| { assert p[i] in p; }
    GatherPermutation(s, p, Range(|s|));
    assert Gather(s, Range(|s|)) == s;
  }
}
