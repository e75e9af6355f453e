/** Sequence filtering and counting, as Array.prototype.filter and filter(...).length. */
module Lists {

  /** r occurs in s in order, possibly with gaps. */
  predicate SubSeq<T(==)>(r: seq<T>, s: seq<T>)
    decreases |s|
  {
    |r| == 0 || (|s| > 0 && ((r[0] == s[0] && SubSeq(r[1..], s[1..])) || SubSeq(r, s[1..])))
  }

  /** No element occurs twice. */
  predicate Distinct<T(==)>(s: seq<T>) {
    forall i, j :: 0 <= i < j < |s| ==> s[i] != s[j]
  }

  /** Extending a prefix by the next element. */
  lemma TakeNext<T>(s: seq<T>, i: nat)
    requires i < |s|
    ensures s[..i] + [s[i]] == s[..i + 1]
  {
  }

  /** The elements satisfying p, in their original order. */
  function Filter<T(==)>(s: seq<T>, p: T -> bool): (r: seq<T>)
    ensures |r| <= |s|
    ensures forall i :: 0 <= i < |r| ==> r[i] in s && p(r[i])
    ensures forall i :: 0 <= i < |s| && p(s[i]) ==> s[i] in r
    ensures SubSeq(r, s)
  {
    if |s| == 0 then []
    else if p(s[0]) then [s[0]] + Filter(s[1..], p)
    else Filter(s[1..], p)
  }

  /** Filtering with a predicate that holds everywhere keeps everything. */
  lemma {:induction false} FilterAll<T>(s: seq<T>, p: T -> bool)
    requires forall x :: x in s ==> p(x)
    ensures Filter(s, p) == s
  {
    if |s| > 0 {
      FilterAll(s[1..], p);
      assert s == [s[0]] + s[1..];
    }
  }

  /** Filtering a sequence without repetitions gives one without repetitions. */
  lemma {:induction false} FilterDistinct<T>(s: seq<T>, p: T -> bool)
    requires Distinct(s)
    ensures Distinct(Filter(s, p))
  {
    if |s| > 0 {
      FilterDistinct(s[1..], p);
      var rest := Filter(s[1..], p);
      assert s[0] !in s[1..];
      assert forall i :: 0 <= i < |rest| ==> rest[i] in s[1..];
    }
  }

  /** filter(p).length */
  function Count<T(==)>(s: seq<T>, p: T -> bool): (n: nat)
    ensures n <= |s|
  {
    |Filter(s, p)|
  }

  /** Counting one element at a time from the front. */
  lemma CountCons<T>(s: seq<T>, p: T -> bool)
    requires |s| > 0
    ensures Count(s, p) == (if p(s[0]) then 1 else 0) + Count(s[1..], p)
  {
  }

  /** A weaker predicate never counts fewer elements. */
  lemma {:induction false} CountMonotone<T>(s: seq<T>, p: T -> bool, q: T -> bool)
    requires forall x :: p(x) ==> q(x)
    ensures Count(s, p) <= Count(s, q)
  {
    if |s| > 0 {
      CountMonotone(s[1..], p, q);
    }
  }

  /** Two predicates that never hold together count at most the whole sequence. */
  lemma {:induction false} CountDisjoint<T>(s: seq<T>, p: T -> bool, q: T -> bool)
    requires forall x :: !(p(x) && q(x))
    ensures Count(s, p) + Count(s, q) <= |s|
  {
    if |s| > 0 {
      CountDisjoint(s[1..], p, q);
    }
  }

  /** A predicate and its negation split the sequence. */
  lemma {:induction false} CountComplement<T>(s: seq<T>, p: T -> bool, q: T -> bool)
    requires forall x :: q(x) == !p(x)
    ensures Count(s, p) + Count(s, q) == |s|
  {
    if |s| > 0 {
      CountComplement(s[1..], p, q);
    }
  }

  /** `d[k] = v` for each pair in turn: a later pair overwrites an earlier one with the same key. */
  function ToMap<K, V>(pairs: seq<(K, V)>): map<K, V> {
    if |pairs| == 0 then map[]
    else ToMap(pairs[..|pairs| - 1])[pairs[|pairs| - 1].0 := pairs[|pairs| - 1].1]
  }

  /** One more pair is one more assignment. */
  lemma ToMapStep<K, V>(pairs: seq<(K, V)>, i: int)
    requires 0 <= i < |pairs|
    ensures ToMap(pairs[..i + 1]) == ToMap(pairs[..i])[pairs[i].0 := pairs[i].1]
  {
    assert pairs[..i + 1][..i] == pairs[..i];
  }

  /** Pair i is the last one with key k. */
  predicate LastWithKey<K(==), V>(pairs: seq<(K, V)>, i: int, k: K) {
    0 <= i < |pairs| && pairs[i].0 == k && forall j :: i < j < |pairs| ==> pairs[j].0 != k
  }

  /** The keys of the map are exactly the keys of the pairs. */
  lemma {:induction false} ToMapKeys<K, V>(pairs: seq<(K, V)>)
    ensures ToMap(pairs).Keys == set i | 0 <= i < |pairs| :: pairs[i].0
  {
    if |pairs| > 0 {
      var init := pairs[..|pairs| - 1];
      ToMapKeys(init);
      var ks := set i | 0 <= i < |pairs| :: pairs[i].0;
      var ki := set i | 0 <= i < |init| :: init[i].0;
      forall k ensures k in ks <==> k in ki || k == pairs[|pairs| - 1].0 {
        if k in ks {
          var i :| 0 <= i < |pairs| && pairs[i].0 == k;
          if i < |init| {
            assert init[i].0 == k;
          }
        }
        if k in ki {
          var i :| 0 <= i < |init| && init[i].0 == k;
          assert pairs[i].0 == k;
        }
      }
    }
  }

  /** The value a key maps to is that of the last pair with the key. */
  lemma {:induction false} ToMapLastWins<K, V>(pairs: seq<(K, V)>, k: K)
    requires k in ToMap(pairs)
    ensures exists i :: LastWithKey(pairs, i, k) && ToMap(pairs)[k] == pairs[i].1
  {
    var n := |pairs| - 1;
    if pairs[n].0 == k {
      assert LastWithKey(pairs, n, k);
    } else {
      var init := pairs[..n];
      ToMapLastWins(init, k);
      var i :| LastWithKey(init, i, k) && ToMap(init)[k] == init[i].1;
      assert pairs[i] == init[i];
      forall j | i < j < |pairs| ensures pairs[j].0 != k {
        if j < n {
          assert pairs[j] == init[j];
        }
      }
      assert LastWithKey(pairs, i, k);
    }
  }
}
