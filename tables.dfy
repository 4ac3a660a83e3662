/**
 * The two ORM queries the addons use on every table: `search(domain, limit=1)` (the first
 * record, in table order, that satisfies the domain) and `search_count(domain)`.
 */
module Tables {
  import opened Wrappers

  /** `search(domain, limit=1)`: the index of the first element satisfying `p`. */
  function FindFirst<T>(s: seq<T>, p: T -> bool): (r: Option<nat>)
    ensures r.Some? ==> r.value < |s| && p(s[r.value])
    ensures r.Some? ==> forall j :: 0 <= j < r.value ==> !p(s[j])
    ensures r.None? ==> forall j :: 0 <= j < |s| ==> !p(s[j])
  {
    if s == [] then None
    else if p(s[0]) then Some(0)
    else match FindFirst(s[1..], p)
      case None => None
      case Some(i) => Some(i + 1)
  }

  /** Appending elements does not change a search that already succeeds. */
  lemma FindFirstAppend<T>(s: seq<T>, t: seq<T>, p: T -> bool)
    requires FindFirst(s, p).Some?
    ensures FindFirst(s + t, p) == FindFirst(s, p)
  {
    var i := FindFirst(s, p).value;
    FindFirstIs(s + t, p, i);
  }

  /** A search that fails on `s` finds the first match of `t`, shifted past `s`. */
  lemma FindFirstAfter<T>(s: seq<T>, t: seq<T>, p: T -> bool)
    requires FindFirst(s, p).None? && FindFirst(t, p).Some?
    ensures FindFirst(s + t, p) == Some(|s| + FindFirst(t, p).value)
  {
    var i := |s| + FindFirst(t, p).value;
    assert (s + t)[i] == t[i - |s|];
    forall j | 0 <= j < i ensures !p((s + t)[j]) {
      if j < |s| {
        assert (s + t)[j] == s[j];
      } else {
        assert (s + t)[j] == t[j - |s|];
      }
    }
    FindFirstIs(s + t, p, i);
  }

  /** The search result is determined by the first satisfying position. */
  lemma FindFirstIs<T>(s: seq<T>, p: T -> bool, i: nat)
    requires i < |s| && p(s[i]) && forall j :: 0 <= j < i ==> !p(s[j])
    ensures FindFirst(s, p) == Some(i)
  {
  }

  /** `d.get(key)` on a dictionary written as a list of entries: the first entry with that key. */
  function Get<V>(entries: seq<(string, V)>, key: string): (r: Option<V>)
    ensures r.Some? ==> exists k :: 0 <= k < |entries| && entries[k] == (key, r.value)
    ensures r.None? ==> forall k :: 0 <= k < |entries| ==> entries[k].0 != key
  {
    if entries == [] then None
    else if entries[0].0 == key then Some(entries[0].1)
    else Get(entries[1..], key)
  }

  /** Entries before the first one with the key do not change the lookup. */
  lemma {:induction false} GetSkips<V>(before: seq<(string, V)>, after: seq<(string, V)>, key: string)
    requires forall j :: 0 <= j < |before| ==> before[j].0 != key
    ensures Get(before + after, key) == Get(after, key)
    decreases |before|
  {
    if before != [] {
      assert (before + after)[1..] == before[1..] + after;
      GetSkips(before[1..], after, key);
    } else {
      assert before + after == after;
    }
  }

  /** `search_count(domain)` */
  function Count<T>(s: seq<T>, p: T -> bool): (r: nat)
    ensures r <= |s|
    ensures r == 0 <==> forall j :: 0 <= j < |s| ==> !p(s[j])
    ensures r == |s| <==> forall j :: 0 <= j < |s| ==> p(s[j])
  {
    if s == [] then 0
    else (if p(s[0]) then 1 else 0) + Count(s[1..], p)
  }

  lemma {:induction false} CountAppend<T>(s: seq<T>, t: seq<T>, p: T -> bool)
    ensures Count(s + t, p) == Count(s, p) + Count(t, p)
    decreases |s|
  {
    if s == [] {
      assert s + t == t;
    } else {
      assert (s + t)[1..] == s[1..] + t;
      CountAppend(s[1..], t, p);
    }
  }

  /** A narrower domain never counts more records. */
  lemma {:induction false} CountMonotone<T>(s: seq<T>, p: T -> bool, q: T -> bool)
    requires forall x :: p(x) ==> q(x)
    ensures Count(s, p) <= Count(s, q)
    decreases |s|
  {
    if s != [] {
      CountMonotone(s[1..], p, q);
    }
  }

  /** The results of `f` over `s`, in order, leaving out the elements it gives nothing for. */
  function Collect<T, U>(s: seq<T>, f: T -> Option<U>): (r: seq<U>)
    ensures |r| <= |s|
    decreases |s|, 1
  {
    if s == [] then [] else CollectFrom(s, f)
  }

  /** `Collect` of a non-empty sequence. */
  function CollectFrom<T, U>(s: seq<T>, f: T -> Option<U>): (r: seq<U>)
    requires s != []
    ensures |r| <= |s|
    decreases |s|, 0
  {
    var rest := Collect(s[1..], f);
    match f(s[0])
    case None => rest
    case Some(u) => [u] + rest
  }

  lemma CollectOne<T, U>(x: T, f: T -> Option<U>)
    ensures Collect([x], f) == if f(x).Some? then [f(x).value] else []
  {
    assert [x][1..] == [];
  }

  lemma {:induction false} CollectAppend<T, U>(s: seq<T>, t: seq<T>, f: T -> Option<U>)
    ensures Collect(s + t, f) == Collect(s, f) + Collect(t, f)
    decreases |s|
  {
    if s == [] {
      assert s + t == t;
    } else {
      assert (s + t)[1..] == s[1..] + t;
      assert (s + t)[0] == s[0];
      CollectAppend(s[1..], t, f);
    }
  }

  /** One result per element `f` gives something for. */
  lemma {:induction false} CollectCount<T, U>(s: seq<T>, f: T -> Option<U>, p: T -> bool)
    requires forall x :: p(x) == f(x).Some?
    ensures |Collect(s, f)| == Count(s, p)
    decreases |s|
  {
    if s != [] {
      CollectCount(s[1..], f, p);
    }
  }

  /** Every result has each property every result of `f` has. */
  lemma {:induction false} CollectAll<T, U>(s: seq<T>, f: T -> Option<U>, q: U -> bool)
    requires forall x :: f(x).Some? ==> q(f(x).value)
    ensures forall k :: 0 <= k < |Collect(s, f)| ==> q(Collect(s, f)[k])
    decreases |s|
  {
    if s != [] {
      CollectAll(s[1..], f, q);
      assert Collect(s, f) == CollectFrom(s, f);
    }
  }

  /** Every result `f` gives for an element is collected. */
  lemma {:induction false} CollectHas<T, U>(s: seq<T>, f: T -> Option<U>, k: nat)
    requires k < |s| && f(s[k]).Some?
    ensures f(s[k]).value in Collect(s, f)
    decreases |s|
  {
    assert Collect(s, f) == CollectFrom(s, f);
    if k > 0 {
      CollectHas(s[1..], f, k - 1);
    }
  }

  /** Every collected value is a result of `f` for some element. */
  lemma {:induction false} CollectedFrom<T, U>(s: seq<T>, f: T -> Option<U>, u: U)
    requires u in Collect(s, f)
    ensures exists k :: 0 <= k < |s| && f(s[k]) == Some(u)
    decreases |s|
  {
    assert Collect(s, f) == CollectFrom(s, f);
    if f(s[0]) == Some(u) {
      assert f(s[0]) == Some(u);
    } else {
      CollectedFrom(s[1..], f, u);
      var k :| 0 <= k < |s[1..]| && f(s[1..][k]) == Some(u);
      assert f(s[k + 1]) == Some(u);
    }
  }

  /** Two domains no record satisfies together count at most all the records. */
  lemma {:induction false} CountDisjoint<T>(s: seq<T>, p: T -> bool, q: T -> bool)
    requires forall x :: !(p(x) && q(x))
    ensures Count(s, p) + Count(s, q) <= |s|
    decreases |s|
  {
    if s != [] {
      CountDisjoint(s[1..], p, q);
    }
  }
}
