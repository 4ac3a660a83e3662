/**
 * `read_group(domain, [field], [field])` over one field: one group per distinct value of the
 * field, each with the number of records holding it. Groups are listed in an order of the
 * model's own (see the README); what is fixed is which groups there are and their counts.
 */
module Grouping {
  import opened Tables

  /** The records whose field `key` equals `k`. */
  function KeyIs<T, K(==)>(key: T -> K, k: K): T -> bool {
    (x: T) => key(x) == k
  }

  /** The groups after one more record with value `k`: its group's count goes up, or a new group starts. */
  function AddKey<K(==)>(groups: seq<(K, nat)>, k: K): (r: seq<(K, nat)>)
    ensures |r| == |groups| || |r| == |groups| + 1
  {
    if groups == [] then [(k, 1)]
    else if groups[0].0 == k then [(k, groups[0].1 + 1)] + groups[1..]
    else [groups[0]] + AddKey(groups[1..], k)
  }

  /** The groups of `rows` by `key`, as pairs of a value and its count. */
  function GroupBy<T, K(==)>(rows: seq<T>, key: T -> K): seq<(K, nat)> {
    if rows == [] then [] else AddKey(GroupBy(rows[1..], key), key(rows[0]))
  }

  /** The `labels` list of a chart: the group values. */
  function Labels<K>(groups: seq<(K, nat)>): (r: seq<K>)
    ensures |r| == |groups|
  {
    seq(|groups|, i requires 0 <= i < |groups| => groups[i].0)
  }

  /** The `values` list of a chart: the group counts. */
  function Values<K>(groups: seq<(K, nat)>): (r: seq<nat>)
    ensures |r| == |groups|
  {
    seq(|groups|, i requires 0 <= i < |groups| => groups[i].1)
  }

  function Sum(values: seq<nat>): nat {
    if values == [] then 0 else values[0] + Sum(values[1..])
  }

  /** The count of the group with value `k`, or 0 when there is none. */
  function Lookup<K(==)>(groups: seq<(K, nat)>, k: K): nat {
    if groups == [] then 0
    else if groups[0].0 == k then groups[0].1
    else Lookup(groups[1..], k)
  }

  predicate DistinctKeys<K(==)>(groups: seq<(K, nat)>) {
    forall i, j :: 0 <= i < j < |groups| ==> groups[i].0 != groups[j].0
  }

  predicate Positive<K>(groups: seq<(K, nat)>) {
    forall i :: 0 <= i < |groups| ==> groups[i].1 > 0
  }

  /** Adding a record raises the count of its value by one and leaves the others. */
  lemma {:induction false} AddKeyLookup<K>(groups: seq<(K, nat)>, k: K, k': K)
    requires DistinctKeys(groups)
    ensures Lookup(AddKey(groups, k), k') == Lookup(groups, k') + (if k == k' then 1 else 0)
  {
    if groups != [] && groups[0].0 != k {
      AddKeyLookup(groups[1..], k, k');
    } else if groups != [] && groups[0].0 != k' {
      assert AddKey(groups, k)[1..] == groups[1..];
    }
  }

  /** Adding a record keeps the values distinct and the counts positive. */
  lemma {:induction false} AddKeyShape<K>(groups: seq<(K, nat)>, k: K)
    requires DistinctKeys(groups) && Positive(groups)
    ensures DistinctKeys(AddKey(groups, k)) && Positive(AddKey(groups, k))
    ensures forall i :: 0 <= i < |AddKey(groups, k)| ==> AddKey(groups, k)[i].0 == k || AddKey(groups, k)[i].0 in Labels(groups)
  {
    if groups != [] && groups[0].0 == k {
      var r := AddKey(groups, k);
      forall i | 0 <= i < |r| ensures r[i].0 == groups[i].0 {
        if i > 0 {
          assert r[i] == groups[i];
        }
      }
      forall i | 0 <= i < |r| ensures r[i].0 in Labels(groups) {
        assert Labels(groups)[i] == groups[i].0;
      }
    } else if groups != [] {
      AddKeyShape(groups[1..], k);
      var r := AddKey(groups, k);
      var t := AddKey(groups[1..], k);
      assert r == [groups[0]] + t;
      forall i | 0 < i < |r| ensures r[i] == t[i - 1] && r[0].0 != r[i].0 && (r[i].0 == k || r[i].0 in Labels(groups)) {
        if r[i].0 != k {
          var m :| 0 <= m < |groups[1..]| && Labels(groups[1..])[m] == r[i].0;
          assert Labels(groups)[m + 1] == r[i].0;
        }
      }
      forall i, j | 0 <= i < j < |r| ensures r[i].0 != r[j].0 {
        if i > 0 {
          assert t[i - 1].0 != t[j - 1].0;
        }
      }
      assert Labels(groups)[0] == r[0].0;
    }
  }

  /** Adding a record adds one to the total. */
  lemma {:induction false} AddKeySum<K>(groups: seq<(K, nat)>, k: K)
    ensures Sum(Values(AddKey(groups, k))) == Sum(Values(groups)) + 1
  {
    if groups != [] {
      assert Values(groups)[1..] == Values(groups[1..]);
      var r := AddKey(groups, k);
      assert Values(r)[1..] == Values(r[1..]);
      if groups[0].0 != k {
        AddKeySum(groups[1..], k);
      }
    }
  }

  /** The counts of a grouping are the numbers of records per value, and they are positive and distinct. */
  lemma {:induction false} GroupByCounts<T, K>(rows: seq<T>, key: T -> K)
    ensures DistinctKeys(GroupBy(rows, key)) && Positive(GroupBy(rows, key))
    ensures forall k :: Lookup(GroupBy(rows, key), k) == Count(rows, KeyIs(key, k))
  {
    if rows != [] {
      var g := GroupBy(rows[1..], key);
      GroupByCounts(rows[1..], key);
      AddKeyShape(g, key(rows[0]));
      forall k ensures Lookup(GroupBy(rows, key), k) == Count(rows, KeyIs(key, k)) {
        AddKeyLookup(g, key(rows[0]), k);
      }
    }
  }

  /** Every record is counted once: the counts add up to the number of records. */
  lemma {:induction false} GroupBySum<T, K>(rows: seq<T>, key: T -> K)
    ensures Sum(Values(GroupBy(rows, key))) == |rows|
  {
    if rows != [] {
      GroupBySum(rows[1..], key);
      AddKeySum(GroupBy(rows[1..], key), key(rows[0]));
    }
  }

  /** With distinct values, each group's count is the one `Lookup` finds for its value. */
  lemma {:induction false} LookupAt<K>(groups: seq<(K, nat)>, i: nat)
    requires DistinctKeys(groups) && i < |groups|
    ensures Lookup(groups, groups[i].0) == groups[i].1
  {
    if i > 0 {
      LookupAt(groups[1..], i - 1);
    }
  }

  /** With positive counts, a value has a group exactly when its count is not zero. */
  lemma {:induction false} LookupPositive<K>(groups: seq<(K, nat)>, k: K)
    requires Positive(groups)
    ensures Lookup(groups, k) > 0 <==> k in Labels(groups)
  {
    if groups != [] {
      LookupPositive(groups[1..], k);
      assert Labels(groups) == [groups[0].0] + Labels(groups[1..]);
    }
  }

  /** Each listed count is the number of records with the listed value. */
  lemma GroupByValues<T, K>(rows: seq<T>, key: T -> K)
    ensures forall i :: 0 <= i < |GroupBy(rows, key)| ==>
              Values(GroupBy(rows, key))[i] == Count(rows, KeyIs(key, Labels(GroupBy(rows, key))[i]))
  {
    var g := GroupBy(rows, key);
    GroupByCounts(rows, key);
    forall i | 0 <= i < |g| ensures Values(g)[i] == Count(rows, KeyIs(key, Labels(g)[i])) {
      LookupAt(g, i);
      assert Values(g)[i] == g[i].1 && Labels(g)[i] == g[i].0;
      assert Lookup(g, g[i].0) == Count(rows, KeyIs(key, g[i].0));
    }
  }

  /** A value is listed exactly when some record has it. */
  lemma GroupByLabels<T, K>(rows: seq<T>, key: T -> K)
    ensures forall k :: k in Labels(GroupBy(rows, key)) <==> Count(rows, KeyIs(key, k)) > 0
  {
    var g := GroupBy(rows, key);
    GroupByCounts(rows, key);
    forall k ensures k in Labels(g) <==> Count(rows, KeyIs(key, k)) > 0 {
      LookupPositive(g, k);
    }
  }

  /**
   * The chart of `rows` by `key`: its values are distinct, each count is the number of
   * records with that value, a value is listed exactly when some record has it, and the
   * counts add up to the number of records.
   */
  lemma GroupByChart<T, K>(rows: seq<T>, key: T -> K)
    ensures var g := GroupBy(rows, key);
            && |Labels(g)| == |Values(g)|
            && (forall i, j :: 0 <= i < j < |g| ==> Labels(g)[i] != Labels(g)[j])
            && (forall i :: 0 <= i < |g| ==> Values(g)[i] == Count(rows, KeyIs(key, Labels(g)[i])))
            && (forall k :: k in Labels(g) <==> Count(rows, KeyIs(key, k)) > 0)
            && Sum(Values(g)) == |rows|
  {
    GroupByCounts(rows, key);
    GroupBySum(rows, key);
    GroupByValues(rows, key);
    GroupByLabels(rows, key);
  }
}
