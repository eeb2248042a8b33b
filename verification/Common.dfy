/** Small shared vocabulary: optional values, results, and sums and maxima over finite collections. */
module Common {
  datatype Option<+T> = None | Some(value: T)

  datatype Result<+T, +E> = Ok(value: T) | Err(error: E)

  function Min(a: int, b: int): int { if a <= b then a else b }

  function Max(a: int, b: int): int { if a <= b then b else a }

  /** The sum of all the values of a map. */
  ghost function Sum<K>(m: map<K, nat>): nat
    decreases |m|
  {
    if m == map[] then 0 else var k :| k in m; m[k] + Sum(m - {k})
  }

  /** Any key may be taken out of a sum first. */
  lemma {:induction false} SumRemove<K>(m: map<K, nat>, k: K)
    requires k in m
    ensures Sum(m) == m[k] + Sum(m - {k})
    decreases |m|
  {
    var j :| j in m && Sum(m) == m[j] + Sum(m - {j});
    if j != k {
      SumRemove(m - {j}, k);
      SumRemove(m - {k}, j);
      assert m - {j} - {k} == m - {k} - {j};
    }
  }

  /** What a single write to a map does to the sum of its values. */
  lemma SumUpdate<K>(m: map<K, nat>, k: K, v: nat)
    ensures Sum(m[k := v]) == Sum(m) + v - (if k in m then m[k] else 0)
  {
    SumRemove(m[k := v], k);
    assert m[k := v] - {k} == m - {k};
    if k in m {
      SumRemove(m, k);
    } else {
      assert m - {k} == m;
    }
  }

  lemma Member<T>(s: set<T>) returns (e: T)
    requires s != {}
    ensures e in s
  {
    e :| e in s;
  }

  lemma {:induction false} GreatestExists(s: set<int>)
    requires s != {}
    ensures exists m :: m in s && forall x | x in s :: x <= m
    decreases |s|
  {
    var x := Member(s);
    if s == {x} {
      assert forall y | y in s :: y <= x;
    } else {
      GreatestExists(s - {x});
      var m :| m in s - {x} && forall y | y in s - {x} :: y <= m;
      assert forall y | y in s :: y == x || y in s - {x};
      assert Max(m, x) in s && forall y | y in s :: y <= Max(m, x);
    }
  }

  function Greatest(s: set<int>): (m: int)
    requires s != {}
    ensures m in s && forall x | x in s :: x <= m
  {
    GreatestExists(s);
    var m :| m in s && forall x | x in s :: x <= m;
    m
  }

  lemma SubsetOfSameSize<T>(a: set<T>, b: set<T>)
    requires a <= b && |a| == |b|
    ensures a == b
  {
    assert |b - a| == |b| - |a|;
  }

  lemma SubsetSize<T>(a: set<T>, b: set<T>)
    requires a <= b
    ensures |a| <= |b|
  {
    assert |b - a| == |b| - |a|;
  }

  // ---- Queries in descending order ----

  /** The numbers of a set as the database returns them in descending order, at most `limit`. */
  function NewestFirst(days: set<int>, limit: nat): seq<int>
    decreases limit
  {
    if limit == 0 || days == {} then []
    else
      var latest := Greatest(days);
      [latest] + NewestFirst(days - {latest}, limit - 1)
  }

  /** That list is the query result: it is made of members and leaves out only smaller ones, if any. */
  lemma {:induction false} NewestFirstSelects(days: set<int>, limit: nat)
    ensures var rows := NewestFirst(days, limit);
            && |rows| == Min(|days|, limit)
            && (forall d | d in rows :: d in days)
            && (forall d, e | d in days && d !in rows && e in rows :: d < e)
    decreases limit
  {
    if limit > 0 && days != {} {
      var latest := Greatest(days);
      NewestFirstSelects(days - {latest}, limit - 1);
      var tail := NewestFirst(days - {latest}, limit - 1);
      assert forall d :: d in NewestFirst(days, limit) <==> d == latest || d in tail;
      assert forall d | d in days :: d == latest || d in days - {latest};
    }
  }

  /** And it descends strictly. */
  lemma {:induction false} NewestFirstDescends(days: set<int>, limit: nat)
    ensures var rows := NewestFirst(days, limit); forall i, j | 0 <= i < j < |rows| :: rows[j] < rows[i]
    decreases limit
  {
    if limit > 0 && days != {} {
      var latest := Greatest(days);
      var tail := NewestFirst(days - {latest}, limit - 1);
      NewestFirstDescends(days - {latest}, limit - 1);
      NewestFirstSelects(days - {latest}, limit - 1);
      forall i | 0 <= i < |tail| ensures tail[i] < latest {
        assert tail[i] in tail;
      }
    }
  }

  // ---- Maps from which an entry is written or removed ----

  function Get<K, V>(m: map<K, V>, k: K): Option<V> {
    if k in m then Some(m[k]) else None
  }

  function Put<K, V>(m: map<K, V>, k: K, v: Option<V>): map<K, V> {
    if v.Some? then m[k := v.value] else m - {k}
  }

  function Matching<K, V>(m: map<K, V>, f: V -> bool): set<K> {
    set k | k in m && f(m[k])
  }

  function Weight<V>(v: Option<V>, f: V -> bool): nat {
    if v.Some? && f(v.value) then 1 else 0
  }

  lemma MatchingWithout<K, V>(m: map<K, V>, k: K, f: V -> bool)
    ensures |Matching(m, f)| == |Matching(m - {k}, f)| + Weight(Get(m, k), f)
  {
    var rest := Matching(m - {k}, f);
    if k in m && f(m[k]) {
      assert Matching(m, f) == rest + {k};
    } else {
      assert Matching(m, f) == rest;
    }
  }

  /** What one write does to the number of entries of a kind. */
  lemma MatchingMoves<K, V>(m: map<K, V>, k: K, v: Option<V>, f: V -> bool)
    ensures |Matching(Put(m, k, v), f)| + Weight(Get(m, k), f) == |Matching(m, f)| + Weight(v, f)
  {
    MatchingWithout(m, k, f);
    MatchingWithout(Put(m, k, v), k, f);
    hide Matching;
    assert Put(m, k, v) - {k} == m - {k};
    assert Get(Put(m, k, v), k) == v;
  }
}
