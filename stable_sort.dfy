/** Python's `sorted(xs, key=k)` on string keys: a stable sort. It is stated
    on positions: position `i` goes before position `j` when its key is
    smaller, or when the keys are equal and `i` comes first. Sorting the
    positions by that order is exactly a stable sort by key. */
module StableSort {
  import opened Text

  /** Position `i` goes no later than position `j`. */
  predicate Before(keys: seq<string>, i: nat, j: nat)
    requires i < |keys| && j < |keys|
  {
    if keys[i] == keys[j] then i <= j else StrLe(keys[i], keys[j])
  }

  lemma BeforeTotal(keys: seq<string>, i: nat, j: nat)
    requires i < |keys| && j < |keys|
    ensures Before(keys, i, j) || Before(keys, j, i)
  {
    StrLeTotal(keys[i], keys[j]);
  }

  lemma BeforeTransitive(keys: seq<string>, i: nat, j: nat, l: nat)
    requires i < |keys| && j < |keys| && l < |keys|
    requires Before(keys, i, j) && Before(keys, j, l)
    ensures Before(keys, i, l)
  {
    if keys[i] != keys[j] && keys[j] != keys[l] {
      StrLeTransitive(keys[i], keys[j], keys[l]);
      if keys[i] == keys[l] {
        StrLeAntisymmetric(keys[i], keys[j]);
      }
    }
  }

  predicate InRange(keys: seq<string>, s: seq<nat>)
  {
    forall a :: 0 <= a < |s| ==> s[a] < |keys|
  }

  predicate Sorted(keys: seq<string>, s: seq<nat>)
    requires InRange(keys, s)
  {
    forall a, b :: 0 <= a < b < |s| ==> Before(keys, s[a], s[b])
  }

  function Insert(keys: seq<string>, x: nat, s: seq<nat>): (r: seq<nat>)
    requires x < |keys| && InRange(keys, s)
    ensures multiset(r) == multiset(s) + multiset{x}
    ensures InRange(keys, r)
  {
    if s == [] then [x]
    else if Before(keys, x, s[0]) then [x] + s
    else
      var r := [s[0]] + Insert(keys, x, s[1..]);
      assert s == [s[0]] + s[1..];
      r
  }

  function Sort(keys: seq<string>, s: seq<nat>): (r: seq<nat>)
    requires InRange(keys, s)
    ensures multiset(r) == multiset(s)
    ensures InRange(keys, r)
  {
    if s == [] then []
    else
      assert s == [s[0]] + s[1..];
      Insert(keys, s[0], Sort(keys, s[1..]))
  }

  lemma {:induction false} InsertSorted(keys: seq<string>, x: nat, s: seq<nat>)
    requires x < |keys| && InRange(keys, s) && Sorted(keys, s)
    ensures Sorted(keys, Insert(keys, x, s))
  {
    var r := Insert(keys, x, s);
    if s == [] {
    } else if Before(keys, x, s[0]) {
      forall a, b | 0 <= a < b < |r| ensures Before(keys, r[a], r[b])
      {
        if a == 0 && b > 1 {
          BeforeTransitive(keys, x, s[0], s[b - 1]);
        }
      }
    } else {
      BeforeTotal(keys, x, s[0]);
      var t := Insert(keys, x, s[1..]);
      InsertSorted(keys, x, s[1..]);
      assert multiset(t) == multiset(s[1..]) + multiset{x};
      forall a, b | 0 <= a < b < |r| ensures Before(keys, r[a], r[b])
      {
        if a == 0 {
          var y := t[b - 1];
          assert y in multiset(t);
          if y != x {
            assert y in s[1..];
            var c :| 0 <= c < |s[1..]| && s[1..][c] == y;
            assert s[c + 1] == y;
          }
        }
      }
    }
  }

  lemma {:induction false} SortSorted(keys: seq<string>, s: seq<nat>)
    requires InRange(keys, s)
    ensures Sorted(keys, Sort(keys, s))
  {
    if s != [] {
      SortSorted(keys, s[1..]);
      InsertSorted(keys, s[0], Sort(keys, s[1..]));
    }
  }

  /** The positions `0 .. n-1`. */
  function Positions(n: nat): (r: seq<nat>)
    ensures |r| == n && forall a :: 0 <= a < n ==> r[a] == a
  {
    if n == 0 then [] else Positions(n - 1) + [n - 1]
  }

  /** The stable order of the positions of `keys`: every position once, and
      sorted by key with ties in their original order. */
  function StableOrder(keys: seq<string>): (r: seq<nat>)
    ensures InRange(keys, r) && |r| == |keys|
    ensures multiset(r) == multiset(Positions(|keys|))
    ensures Sorted(keys, r)
  {
    var p := Positions(|keys|);
    SortSorted(keys, p);
    assert |multiset(Sort(keys, p))| == |multiset(p)|;
    Sort(keys, p)
  }

  /** In the stable order the keys never decrease, and two positions with the
      same key keep their original order. */
  lemma StableOrderMeaning(keys: seq<string>, a: nat, b: nat)
    requires a < b < |keys|
    ensures var r := StableOrder(keys);
      StrLe(keys[r[a]], keys[r[b]]) && (keys[r[a]] == keys[r[b]] ==> r[a] < r[b])
  {
    var r := StableOrder(keys);
    if keys[r[a]] == keys[r[b]] {
      assert r[a] <= r[b];
      if r[a] == r[b] {
        assert multiset(r)[r[a]] >= 2 by {
          assert r == r[..a] + [r[a]] + r[a + 1..b] + [r[b]] + r[b + 1..];
        }
        PositionsOnce(|keys|, r[a]);
      }
      StrLeReflexive(keys[r[a]]);
    }
  }

  /** The keys read in the stable order never decrease, and ties keep their
      original order. */
  lemma StableOrderKeys(keys: seq<string>)
    ensures var r := StableOrder(keys);
      forall a, b :: 0 <= a < b < |r| ==> StrLe(keys[r[a]], keys[r[b]]) && (keys[r[a]] == keys[r[b]] ==> r[a] < r[b])
  {
    var r := StableOrder(keys);
    forall a, b | 0 <= a < b < |r| ensures StrLe(keys[r[a]], keys[r[b]]) && (keys[r[a]] == keys[r[b]] ==> r[a] < r[b]) {
      StableOrderMeaning(keys, a, b);
    }
  }

  /** `order` rearranges every position of `keys` once, the keys never
      decrease along it, and positions with equal keys keep their original
      order: what a stable sort by key produces. */
  predicate StableArrangement(keys: seq<string>, order: seq<nat>)
  {
    InRange(keys, order) && multiset(order) == multiset(Positions(|keys|)) &&
    forall a, b :: 0 <= a < b < |order| ==>
      StrLe(keys[order[a]], keys[order[b]]) && (keys[order[a]] == keys[order[b]] ==> order[a] < order[b])
  }

  /** The stable order is a stable arrangement. */
  lemma StableOrderIsStable(keys: seq<string>)
    ensures StableArrangement(keys, StableOrder(keys))
  {
    StableOrderKeys(keys);
  }

  lemma PositionsOnce(n: nat, i: nat)
    requires i < n
    ensures multiset(Positions(n))[i] == 1
  {
    if n - 1 != i {
      PositionsOnce(n - 1, i);
    } else {
      assert i !in Positions(n - 1);
    }
  }

  lemma StrLeReflexive(a: string)
    ensures StrLe(a, a)
  {
  }

  /** The items of `s` at the given positions, in that order. */
  function Pick<T>(s: seq<T>, order: seq<nat>): (r: seq<T>)
    requires forall a :: 0 <= a < |order| ==> order[a] < |s|
    ensures |r| == |order| && forall a :: 0 <= a < |order| ==> r[a] == s[order[a]]
  {
    seq(|order|, a requires 0 <= a < |order| => s[order[a]])
  }

  /** Taking out the item at `p` takes one copy of it out of the multiset. */
  lemma RemoveAt(order: seq<nat>, p: nat)
    requires p < |order|
    ensures multiset(order[..p] + order[p + 1..]) == multiset(order) - multiset{order[p]}
  {
    assert order == order[..p] + [order[p]] + order[p + 1..];
  }

  lemma DropLast(xs: seq<nat>, t: nat)
    ensures multiset(xs + [t]) - multiset{t} == multiset(xs)
  {
    forall x ensures (multiset(xs + [t]) - multiset{t})[x] == multiset(xs)[x] {
      assert multiset(xs + [t]) == multiset(xs) + multiset{t};
    }
  }

  /** Picking without the entry at `p` leaves out one copy of its item. */
  lemma PickRemove<T>(s: seq<T>, order: seq<nat>, p: nat, rest: seq<nat>)
    requires forall a :: 0 <= a < |order| ==> order[a] < |s|
    requires p < |order| && rest == order[..p] + order[p + 1..]
    ensures forall a :: 0 <= a < |rest| ==> rest[a] < |s|
    ensures multiset(Pick(s, order)) == multiset(Pick(s, rest)) + multiset{s[order[p]]}
  {
    assert Pick(s, order) == Pick(s, order[..p]) + [s[order[p]]] + Pick(s, order[p + 1..]);
    assert Pick(s, rest) == Pick(s, order[..p]) + Pick(s, order[p + 1..]);
  }

  lemma PermutedPositionsBelow(order: seq<nat>, n: nat)
    requires multiset(order) == multiset(Positions(n))
    ensures forall a :: 0 <= a < |order| ==> order[a] < n
  {
    forall a | 0 <= a < |order| ensures order[a] < n {
      assert order[a] in multiset(Positions(n));
      var ps := Positions(n);
      var i :| 0 <= i < |ps| && ps[i] == order[a];
    }
  }

  lemma LastSplit<T>(s: seq<T>)
    requires |s| > 0
    ensures multiset(s) == multiset(s[..|s| - 1]) + multiset{s[|s| - 1]}
  {
    assert s == s[..|s| - 1] + [s[|s| - 1]];
  }

  lemma LastStep<T>(s: seq<T>, picked: seq<T>, pickedRest: seq<T>)
    requires |s| > 0
    requires multiset(picked) == multiset(pickedRest) + multiset{s[|s| - 1]}
    requires multiset(pickedRest) == multiset(s[..|s| - 1])
    ensures multiset(picked) == multiset(s)
  {
    LastSplit(s);
  }

  /** Picking from a prefix that holds every position picked. */
  lemma PickPrefix<T>(s: seq<T>, m: nat, order: seq<nat>)
    requires m <= |s|
    requires forall a :: 0 <= a < |order| ==> order[a] < m
    ensures Pick(s[..m], order) == Pick(s, order)
  {
  }

  /** The last position occurs in a permutation of the positions, and the rest
      is a permutation of the positions below it. */
  lemma FindTop(order: seq<nat>, n: nat) returns (p: nat, rest: seq<nat>)
    requires n > 0 && multiset(order) == multiset(Positions(n))
    ensures p < |order| && order[p] == n - 1 && rest == order[..p] + order[p + 1..]
    ensures multiset(rest) == multiset(Positions(n - 1))
  {
    var top: nat := n - 1;
    assert Positions(n) == Positions(n - 1) + [top];
    assert top in multiset(order);
    p :| 0 <= p < |order| && order[p] == top;
    rest := order[..p] + order[p + 1..];
    RemoveAt(order, p);
    DropLast(Positions(n - 1), top);
  }

  /** One step of the induction below: the last item is picked at `p`, and
      the other entries pick the rest of the items. */
  lemma PickStep<T>(s: seq<T>, s': seq<T>, order: seq<nat>, p: nat, rest: seq<nat>)
    requires |s| > 0 && s' == s[..|s| - 1]
    requires forall a :: 0 <= a < |order| ==> order[a] < |s|
    requires p < |order| && order[p] == |s| - 1 && rest == order[..p] + order[p + 1..]
    requires forall a :: 0 <= a < |rest| ==> rest[a] < |s| - 1
    requires multiset(Pick(s', rest)) == multiset(s')
    ensures multiset(Pick(s, order)) == multiset(s)
  {
    PickPrefix(s, |s| - 1, rest);
    PickRemove(s, order, p, rest);
    LastStep(s, Pick(s, order), Pick(s, rest));
  }

  /** A permutation of the positions lists every item exactly as often as it
      occurs. */
  lemma {:induction false} PickPermutation<T>(s: seq<T>, order: seq<nat>)
    requires multiset(order) == multiset(Positions(|s|))
    ensures forall a :: 0 <= a < |order| ==> order[a] < |s|
    ensures multiset(Pick(s, order)) == multiset(s)
    decreases |s|
  {
    var n := |s|;
    PermutedPositionsBelow(order, n);
    if n > 0 {
      var p, rest := FindTop(order, n);
      var s' := s[..n - 1];
      assert |s'| == n - 1;
      PickPermutation(s', rest);
      PickStep(s, s', order, p, rest);
    } else {
      assert |order| == |multiset(order)| == 0;
    }
  }

  /** Picking `s` along the stable order of its keys: a permutation of `s`,
      along a stable arrangement. */
  lemma StableSortFacts<T>(s: seq<T>, keys: seq<string>)
    requires |keys| == |s|
    ensures InRange(keys, StableOrder(keys)) && StableArrangement(keys, StableOrder(keys))
    ensures var r := Pick(s, StableOrder(keys));
      |r| == |s| && multiset(r) == multiset(s) && forall a :: 0 <= a < |r| ==> r[a] in s
  {
    var order := StableOrder(keys);
    PickPermutation(s, order);
    StableOrderIsStable(keys);
    var r := Pick(s, order);
    assert forall a :: 0 <= a < |r| ==> r[a] == s[order[a]];
  }
}
