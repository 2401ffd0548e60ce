/**
 * The two pieces of Python and pandas collection behaviour that the
 * dashboard relies on: building a `dict` from key/value pairs taken in
 * order, and `Series.unique()`.
 */
module Collections {
  import opened Wrappers

  /** No element occurs twice. */
  predicate NoDuplicates<T(==)>(s: seq<T>) {
    forall i, j | 0 <= i < j < |s| :: s[i] != s[j]
  }

  /** `d.get(k)` on a dictionary: the value, or `None` when `k` is not a key. */
  function Get<K(==), V>(m: map<K, V>, k: K): Option<V> {
    if k in m then Some(m[k]) else None
  }

  /** The keys of a sequence of pairs, in order. */
  function Firsts<K, V>(pairs: seq<(K, V)>): (ks: seq<K>)
    ensures |ks| == |pairs| && forall i | 0 <= i < |pairs| :: ks[i] == pairs[i].0
  {
    seq(|pairs|, i requires 0 <= i < |pairs| => pairs[i].0)
  }

  /** The index of the first occurrence of `x` in `s`. */
  function FirstIndex<T(==)>(s: seq<T>, x: T): (i: nat)
    requires x in s
    ensures i < |s| && s[i] == x
    ensures forall j | 0 <= j < i :: s[j] != x
  {
    if s[0] == x then 0 else 1 + FirstIndex(s[1..], x)
  }

  /**
   * `pd.Series(s).unique()`: every element once, in order of first
   * appearance (DistinctFirstAppearance states the order).
   */
  function Distinct<T(==,!new)>(s: seq<T>): (r: seq<T>)
    ensures forall x :: x in r <==> x in s
    ensures NoDuplicates(r)
    ensures |r| <= |s|
  {
    if s == [] then []
    else
      var d := Distinct(s[..|s| - 1]);
      assert forall x :: x in s <==> x in s[..|s| - 1] || x == s[|s| - 1] by {
        assert s == s[..|s| - 1] + [s[|s| - 1]];
      }
      if s[|s| - 1] in d then d else d + [s[|s| - 1]]
  }

  /** A prefix keeps the first occurrences of what it holds. */
  lemma FirstIndexInPrefix<T>(s: seq<T>, n: nat, x: T)
    requires n <= |s| && x in s[..n]
    ensures x in s && FirstIndex(s, x) == FirstIndex(s[..n], x)
  {
    var i := FirstIndex(s[..n], x);
    assert s[i] == s[..n][i];
    var k := FirstIndex(s, x);
    assert k <= i;
    assert s[..n][k] == s[k];
  }

  /** `unique()` lists the elements in the order in which they first appear. */
  lemma {:induction false} DistinctFirstAppearance<T(!new)>(s: seq<T>)
    ensures forall i, j | 0 <= i < j < |Distinct(s)| ::
      FirstIndex(s, Distinct(s)[i]) < FirstIndex(s, Distinct(s)[j])
  {
    if s != [] {
      var n := |s| - 1;
      var p := s[..n];
      var d := Distinct(p);
      DistinctFirstAppearance(p);
      forall x | x in d ensures FirstIndex(s, x) == FirstIndex(p, x) && FirstIndex(s, x) < n {
        FirstIndexInPrefix(s, n, x);
      }
      if s[n] !in d {
        assert s[n] !in p;
        assert FirstIndex(s, s[n]) == n;
      }
    }
  }

  /** A sequence without repetitions is its own `unique()`. */
  lemma {:induction false} DistinctOfNoDuplicates<T(!new)>(s: seq<T>)
    requires NoDuplicates(s)
    ensures Distinct(s) == s
  {
    if s != [] {
      var n := |s| - 1;
      assert NoDuplicates(s[..n]);
      DistinctOfNoDuplicates(s[..n]);
      assert s[n] !in s[..n];
      assert s == s[..n] + [s[n]];
    }
  }

  /**
   * The dictionary that Python builds by inserting the pairs one after
   * another, as a `dict` display or a dict comprehension does: a later pair
   * overwrites an earlier one with the same key.
   */
  function DictOf<K(==), V>(pairs: seq<(K, V)>): (m: map<K, V>)
    ensures m.Keys == set i | 0 <= i < |pairs| :: pairs[i].0
  {
    if pairs == [] then map[]
    else
      var n := |pairs| - 1;
      var m := DictOf(pairs[..n]);
      assert (set i | 0 <= i < |pairs| :: pairs[i].0) == (set i | 0 <= i < n :: pairs[..n][i].0) + {pairs[n].0} by {
        forall i | 0 <= i < n
          ensures pairs[i].0 in (set i | 0 <= i < n :: pairs[..n][i].0)
        {
          assert pairs[..n][i].0 == pairs[i].0;
        }
      }
      m[pairs[n].0 := pairs[n].1]
  }

  /** `list(d.keys())`: a key keeps the position of its first insertion. */
  function KeysInOrder<K(==,!new), V>(pairs: seq<(K, V)>): (ks: seq<K>)
    ensures forall k :: k in ks <==> k in DictOf(pairs)
    ensures NoDuplicates(ks)
    ensures forall i, j | 0 <= i < j < |ks| ::
              && ks[i] in Firsts(pairs) && ks[j] in Firsts(pairs)
              && FirstIndex(Firsts(pairs), ks[i]) < FirstIndex(Firsts(pairs), ks[j])
  {
    var ks := Distinct(Firsts(pairs));
    DistinctFirstAppearance(Firsts(pairs));
    assert forall k :: k in Firsts(pairs) <==> k in DictOf(pairs) by {
      forall k | k in DictOf(pairs) ensures k in Firsts(pairs) {
        var i :| 0 <= i < |pairs| && pairs[i].0 == k;
        assert Firsts(pairs)[i] == k;
      }
    }
    ks
  }

  /** Last write wins: the value kept for a key is that of the last pair with that key. */
  lemma {:induction false} DictOfLastWins<K, V>(pairs: seq<(K, V)>, i: nat)
    requires i < |pairs|
    requires forall j | i < j < |pairs| :: pairs[j].0 != pairs[i].0
    ensures pairs[i].0 in DictOf(pairs) && DictOf(pairs)[pairs[i].0] == pairs[i].1
  {
    var n := |pairs| - 1;
    if i < n {
      DictOfLastWins(pairs[..n], i);
    }
  }

  /** Every value the dictionary holds comes from the last pair carrying its key. */
  lemma {:induction false} DictOfValueIsLastPair<K, V>(pairs: seq<(K, V)>, k: K)
    requires k in DictOf(pairs)
    ensures exists i | 0 <= i < |pairs| ::
              pairs[i] == (k, DictOf(pairs)[k]) && forall j | i < j < |pairs| :: pairs[j].0 != k
  {
    var n := |pairs| - 1;
    if pairs[n].0 != k {
      DictOfValueIsLastPair(pairs[..n], k);
      var i :| 0 <= i < n && pairs[..n][i] == (k, DictOf(pairs[..n])[k])
        && forall j | i < j < n :: pairs[..n][j].0 != k;
      assert pairs[i] == (k, DictOf(pairs)[k]);
    }
  }
}
