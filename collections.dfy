/**
 The two Python collection idioms the core is built from: `filter(p, xs)`
 turned into a list, and a dict comprehension `{k: v for ...}` over a list of
 pairs, in which a key that repeats takes the value of its last occurrence.
 */
module Collections {

  /** `list(filter(p, xs))`. */
  function Filter<T>(p: T -> bool, xs: seq<T>): (r: seq<T>)
    ensures |r| <= |xs|
  {
    if xs == [] then []
    else (if p(xs[0]) then [xs[0]] else []) + Filter(p, xs[1..])
  }

  /** The filtered list holds exactly the input elements that satisfy `p`. */
  lemma {:induction false} FilterMembers<T>(p: T -> bool, xs: seq<T>)
    ensures forall x :: x in Filter(p, xs) ==> x in xs && p(x)
    ensures forall x :: x in xs && p(x) ==> x in Filter(p, xs)
  {
    if xs != [] {
      FilterMembers(p, xs[1..]);
      assert xs == [xs[0]] + xs[1..];
    }
  }

  /** Filtering keeps input order: it distributes over concatenation. */
  lemma {:induction false} FilterAppend<T>(p: T -> bool, xs: seq<T>, ys: seq<T>)
    ensures Filter(p, xs + ys) == Filter(p, xs) + Filter(p, ys)
  {
    if xs == [] {
      assert xs + ys == ys;
    } else {
      var head := if p(xs[0]) then [xs[0]] else [];
      assert (xs + ys)[0] == xs[0];
      assert (xs + ys)[1..] == xs[1..] + ys;
      FilterAppend(p, xs[1..], ys);
      calc {
        Filter(p, xs + ys);
        head + Filter(p, xs[1..] + ys);
        head + (Filter(p, xs[1..]) + Filter(p, ys));
        (head + Filter(p, xs[1..])) + Filter(p, ys);
        Filter(p, xs) + Filter(p, ys);
      }
    }
  }

  /** Filtering keeps duplicates: every kept value occurs as often as in the input. */
  lemma {:induction false} FilterMultiplicity<T>(p: T -> bool, xs: seq<T>, x: T)
    ensures multiset(Filter(p, xs))[x] == if p(x) then multiset(xs)[x] else 0
  {
    if xs != [] {
      var head := if p(xs[0]) then [xs[0]] else [];
      FilterMultiplicity(p, xs[1..], x);
      assert xs == [xs[0]] + xs[1..];
      assert multiset(Filter(p, xs)) == multiset(head) + multiset(Filter(p, xs[1..]));
      assert multiset(xs) == multiset([xs[0]]) + multiset(xs[1..]);
    }
  }

  /** The keys of a list of pairs. */
  function Firsts<K, V>(pairs: seq<(K, V)>): set<K>
  {
    set i | 0 <= i < |pairs| :: pairs[i].0
  }

  /** `{k: v for (k, v) in pairs}`: pairs are inserted left to right. */
  function ToMap<K, V>(pairs: seq<(K, V)>): (m: map<K, V>)
    ensures m.Keys == Firsts(pairs)
  {
    if pairs == [] then map[]
    else
      var n := |pairs| - 1;
      var m' := ToMap(pairs[..n]);
      assert Firsts(pairs) == Firsts(pairs[..n]) + {pairs[n].0} by {
        forall k | k in Firsts(pairs) ensures k in Firsts(pairs[..n]) + {pairs[n].0} {
          var i :| 0 <= i < |pairs| && pairs[i].0 == k;
          if i < n { assert pairs[..n][i].0 == k; }
        }
      }
      m'[pairs[n].0 := pairs[n].1]
  }

  /** A repeated key takes the value of its last occurrence. */
  lemma {:induction false} ToMapLastWins<K, V>(pairs: seq<(K, V)>, i: nat)
    requires i < |pairs|
    requires forall j :: i < j < |pairs| ==> pairs[j].0 != pairs[i].0
    ensures pairs[i].0 in ToMap(pairs) && ToMap(pairs)[pairs[i].0] == pairs[i].1
  {
    var n := |pairs| - 1;
    if i < n {
      var pre := pairs[..n];
      assert pre[i] == pairs[i];
      ToMapLastWins(pre, i);
    }
  }

  /** Every entry of the dict is one of the pairs it was built from. */
  lemma {:induction false} ToMapEntryFromPair<K, V>(pairs: seq<(K, V)>, k: K)
    requires k in ToMap(pairs)
    ensures (k, ToMap(pairs)[k]) in pairs
  {
    var n := |pairs| - 1;
    if pairs[n].0 != k {
      var pre := pairs[..n];
      ToMapEntryFromPair(pre, k);
      var j :| 0 <= j < |pre| && pre[j] == (k, ToMap(pairs)[k]);
      assert pairs[j] == pre[j];
    }
  }
}
