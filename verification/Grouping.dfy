/**
  Grouping indices by key, as the insertion-ordered dictionaries of the code do, and sums over
  the groups: every index lies in exactly one group, so group sums add up to the whole.
 */
module Grouping {
  import opened Sequences

  // ----- grouping by key -----------------------------------------------------------------

  /** A dictionary from keys to index lists, with its keys in insertion order. */
  datatype IndexGroups = IndexGroups(order: seq<int>, members: map<int, seq<nat>>)

  /** The indices among `idxs` with key `k`, in order. */
  function IndicesOf(keys: seq<int>, idxs: seq<nat>, k: int): (r: seq<nat>)
    requires InRange(idxs, |keys|)
    ensures InRange(r, |keys|)
    ensures forall i :: i in r <==> i in idxs && keys[i] == k
  {
    if idxs == [] then []
    else
      var front, last := idxs[..|idxs| - 1], idxs[|idxs| - 1];
      assert idxs == front + [last];
      var r := IndicesOf(keys, front, k);
      if keys[last] == k then r + [last] else r
  }

  /** The keys of `idxs`, each once, in the order of their first appearance. */
  function FirstSeen(keys: seq<int>, idxs: seq<nat>): (r: seq<int>)
    requires InRange(idxs, |keys|)
    ensures forall i :: i in idxs ==> keys[i] in r
    ensures forall k :: k in r ==> exists i :: i in idxs && keys[i] == k
    ensures Distinct(r)
  {
    if idxs == [] then []
    else
      var front, last := idxs[..|idxs| - 1], idxs[|idxs| - 1];
      assert idxs == front + [last];
      var r := FirstSeen(keys, front);
      if keys[last] in r then r else r + [keys[last]]
  }

  ghost predicate GroupsBy(g: IndexGroups, keys: seq<int>, idxs: seq<nat>)
    requires InRange(idxs, |keys|)
  {
    && g.order == FirstSeen(keys, idxs)
    && (forall k :: k in g.members <==> k in g.order)
    && (forall k :: k in g.order ==> g.members[k] == IndicesOf(keys, idxs, k))
  }

  lemma IndicesSnoc(keys: seq<int>, front: seq<nat>, i: nat, k: int)
    requires InRange(front, |keys|) && i < |keys|
    ensures InRange(front + [i], |keys|)
    ensures IndicesOf(keys, front + [i], k)
         == var r := IndicesOf(keys, front, k); if keys[i] == k then r + [i] else r
  {
    assert (front + [i])[..|front|] == front;
  }

  lemma FirstSeenSnoc(keys: seq<int>, front: seq<nat>, i: nat)
    requires InRange(front, |keys|) && i < |keys|
    ensures InRange(front + [i], |keys|)
    ensures FirstSeen(keys, front + [i])
         == var r := FirstSeen(keys, front); if keys[i] in r then r else r + [keys[i]]
  {
    assert (front + [i])[..|front|] == front;
  }

  lemma NoneOf(keys: seq<int>, idxs: seq<nat>, k: int)
    requires InRange(idxs, |keys|) && k !in FirstSeen(keys, idxs)
    ensures IndicesOf(keys, idxs, k) == []
  {
    HeadIsMember(IndicesOf(keys, idxs, k));
  }

  /** Appending index `i` to the list of key `k`, which is created when it is new. */
  function Added(g: IndexGroups, k: int, i: nat): IndexGroups {
    if k in g.members then g.(members := g.members[k := g.members[k] + [i]])
    else IndexGroups(g.order + [k], g.members[k := [i]])
  }

  lemma GroupsByStep(g: IndexGroups, keys: seq<int>, front: seq<nat>, i: nat)
    requires InRange(front, |keys|) && i < |keys| && GroupsBy(g, keys, front)
    ensures InRange(front + [i], |keys|) && GroupsBy(Added(g, keys[i], i), keys, front + [i])
  {
    hide IndicesOf, FirstSeen;
    FirstSeenSnoc(keys, front, i);
    if keys[i] !in g.members { NoneOf(keys, front, keys[i]); }
    forall k
      ensures IndicesOf(keys, front + [i], k)
           == var r := IndicesOf(keys, front, k); if keys[i] == k then r + [i] else r
    {
      IndicesSnoc(keys, front, i, k);
    }
  }

  method GroupBy(keys: seq<int>, idxs: seq<nat>) returns (g: IndexGroups)
    requires InRange(idxs, |keys|)
    ensures GroupsBy(g, keys, idxs)
  {
    g := IndexGroups([], map[]);
    for i := 0 to |idxs|
      invariant GroupsBy(g, keys, idxs[..i])
    {
      hide *;
      assert idxs[..i + 1] == idxs[..i] + [idxs[i]];
      var k := keys[idxs[i]];
      GroupsByStep(g, keys, idxs[..i], idxs[i]);
      g := Added(g, k, idxs[i]);
    }
    assert idxs[..|idxs|] == idxs;
  }

  lemma {:induction false} IndicesDistinct(keys: seq<int>, idxs: seq<nat>, k: int)
    requires InRange(idxs, |keys|) && Distinct(idxs)
    ensures Distinct(IndicesOf(keys, idxs, k))
  {
    if idxs != [] {
      IndicesDistinct(keys, idxs[..|idxs| - 1], k);
    }
  }

  // ----- sums over a grouping ------------------------------------------------------------

  function SumOver(w: seq<real>, idxs: seq<nat>): real
    requires InRange(idxs, |w|)
  {
    if idxs == [] then 0.0 else SumOver(w, idxs[..|idxs| - 1]) + w[idxs[|idxs| - 1]]
  }

  function SumGroups(w: seq<real>, keys: seq<int>, idxs: seq<nat>, ks: seq<int>): real
    requires |w| == |keys| && InRange(idxs, |keys|)
  {
    if ks == [] then 0.0
    else SumGroups(w, keys, idxs, ks[..|ks| - 1]) + SumOver(w, IndicesOf(keys, idxs, ks[|ks| - 1]))
  }

  lemma SumSnoc(w: seq<real>, front: seq<nat>, i: nat)
    requires InRange(front, |w|) && i < |w|
    ensures InRange(front + [i], |w|) && SumOver(w, front + [i]) == SumOver(w, front) + w[i]
  {
    assert (front + [i])[..|front|] == front;
  }

  lemma SumGroupsSnoc(w: seq<real>, keys: seq<int>, idxs: seq<nat>, ks: seq<int>, k: int)
    requires |w| == |keys| && InRange(idxs, |keys|)
    ensures SumGroups(w, keys, idxs, ks + [k]) == SumGroups(w, keys, idxs, ks) + SumOver(w, IndicesOf(keys, idxs, k))
  {
    assert (ks + [k])[..|ks|] == ks;
  }

  /** One more index raises the sum of its own group and of no other. */
  lemma {:induction false} GrowGroups(w: seq<real>, keys: seq<int>, idxs: seq<nat>, ks: seq<int>, i: nat)
    requires |w| == |keys| && InRange(idxs, |keys|) && i < |keys| && Distinct(ks)
    ensures InRange(idxs + [i], |keys|)
    ensures SumGroups(w, keys, idxs + [i], ks) == SumGroups(w, keys, idxs, ks) + if keys[i] in ks then w[i] else 0.0
  {
    if ks != [] {
      var front, k := ks[..|ks| - 1], ks[|ks| - 1];
      assert ks == front + [k];
      GrowGroups(w, keys, idxs, front, i);
      IndicesSnoc(keys, idxs, i, k);
      SumGroupsSnoc(w, keys, idxs, front, k);
      SumGroupsSnoc(w, keys, idxs + [i], front, k);
      assert k !in front;
      if keys[i] == k {
        SumSnoc(w, IndicesOf(keys, idxs, k), i);
      }
      hide SumGroups, SumOver, IndicesOf;
    }
  }

  lemma FirstGroup(w: seq<real>, keys: seq<int>, front: seq<nat>, i: nat)
    requires |w| == |keys| && InRange(front, |keys|) && i < |keys| && keys[i] !in FirstSeen(keys, front)
    ensures InRange(front + [i], |keys|) && SumOver(w, IndicesOf(keys, front + [i], keys[i])) == w[i]
  {
    hide IndicesOf, FirstSeen;
    NoneOf(keys, front, keys[i]);
    IndicesSnoc(keys, front, i, keys[i]);
    SumSnoc(w, [], i);
    assert [] + [i] == [i];
  }

  lemma GroupSumsStep(w: seq<real>, keys: seq<int>, front: seq<nat>, i: nat)
    requires |w| == |keys| && InRange(front, |keys|) && i < |keys|
    requires SumGroups(w, keys, front, FirstSeen(keys, front)) == SumOver(w, front)
    ensures InRange(front + [i], |keys|)
    ensures SumGroups(w, keys, front + [i], FirstSeen(keys, front + [i])) == SumOver(w, front + [i])
  {
    hide SumGroups, SumOver, IndicesOf, FirstSeen, InRange;
    var ks := FirstSeen(keys, front);
    GrowGroups(w, keys, front, ks, i);
    FirstSeenSnoc(keys, front, i);
    SumSnoc(w, front, i);
    if keys[i] !in ks {
      SumGroupsSnoc(w, keys, front + [i], ks, keys[i]);
      FirstGroup(w, keys, front, i);
    }
  }

  /** Every index lies in exactly one group, so the group sums add up to the whole. */
  lemma {:induction false} GroupSumsAddUp(w: seq<real>, keys: seq<int>, idxs: seq<nat>)
    requires |w| == |keys| && InRange(idxs, |keys|)
    ensures SumGroups(w, keys, idxs, FirstSeen(keys, idxs)) == SumOver(w, idxs)
  {
    if idxs != [] {
      var front := idxs[..|idxs| - 1];
      assert idxs == front + [idxs[|idxs| - 1]];
      GroupSumsAddUp(w, keys, front);
      GroupSumsStep(w, keys, front, idxs[|idxs| - 1]);
      hide *;
    }
  }

  lemma {:induction false} UniformGroups(w: seq<real>, keys: seq<int>, idxs: seq<nat>, ks: seq<int>, c: real)
    requires |w| == |keys| && InRange(idxs, |keys|)
    requires forall k :: k in ks ==> SumOver(w, IndicesOf(keys, idxs, k)) == c
    ensures SumGroups(w, keys, idxs, ks) == Times(c, |ks|)
  {
    OneMore(c, 0);
    if ks != [] {
      hide SumGroups, SumOver, IndicesOf, Times;
      var front, k := ks[..|ks| - 1], ks[|ks| - 1];
      assert ks == front + [k];
      assert k in ks;
      UniformGroups(w, keys, idxs, front, c);
      SumGroupsSnoc(w, keys, idxs, front, k);
      OneMore(c, |front|);
    }
  }

  lemma {:induction false} SameGroups(v: seq<real>, w: seq<real>, keys: seq<int>, idxs: seq<nat>, ks: seq<int>)
    requires |v| == |w| == |keys| && InRange(idxs, |keys|)
    requires forall k :: k in ks ==> SumOver(v, IndicesOf(keys, idxs, k)) == SumOver(w, IndicesOf(keys, idxs, k))
    ensures SumGroups(v, keys, idxs, ks) == SumGroups(w, keys, idxs, ks)
  {
    if ks != [] {
      assert ks[|ks| - 1] in ks;
      SameGroups(v, w, keys, idxs, ks[..|ks| - 1]);
    }
  }

  /** `n` copies of `c`. */
  function Times(c: real, n: nat): real {
    c * n as real
  }

  lemma OneMore(c: real, n: nat)
    ensures Times(c, 0) == 0.0
    ensures Times(c, n + 1) == Times(c, n) + c
  {
    assert (n + 1) as real == n as real + 1.0;
  }

  lemma Together(m: real, a: nat, b: nat)
    ensures Times(m, 0) == 0.0
    ensures Times(m, a + b) == Times(m, a) + Times(m, b)
  {
    assert (a + b) as real == a as real + b as real;
  }

  lemma {:induction false} UniformSum(w: seq<real>, idxs: seq<nat>, c: real)
    requires InRange(idxs, |w|) && forall i :: i in idxs ==> w[i] == c
    ensures SumOver(w, idxs) == Times(c, |idxs|)
  {
    hide Times;
    OneMore(c, 0);
    if idxs != [] {
      assert idxs[|idxs| - 1] in idxs;
      UniformSum(w, idxs[..|idxs| - 1], c);
      OneMore(c, |idxs| - 1);
    }
  }

  function TokenSum(tokens: seq<nat>, idxs: seq<nat>): nat
    requires InRange(idxs, |tokens|)
  {
    if idxs == [] then 0 else TokenSum(tokens, idxs[..|idxs| - 1]) + tokens[idxs[|idxs| - 1]]
  }

  lemma {:induction false} ProportionalSum(w: seq<real>, tokens: seq<nat>, idxs: seq<nat>, m: real)
    requires |w| == |tokens| && InRange(idxs, |w|)
    requires forall i :: i in idxs ==> w[i] == Times(m, tokens[i])
    ensures SumOver(w, idxs) == Times(m, TokenSum(tokens, idxs))
  {
    hide Times;
    Together(m, 0, 0);
    if idxs != [] {
      var front, last := idxs[..|idxs| - 1], idxs[|idxs| - 1];
      assert last in idxs;
      ProportionalSum(w, tokens, front, m);
      Together(m, TokenSum(tokens, front), tokens[last]);
    }
  }
}
