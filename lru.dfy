/**
 * The bookkeeping of `functools.lru_cache`: the cached calls as a list of key/value
 * entries ordered from least to most recently used. A hit moves its entry to the end;
 * a miss appends the new entry, evicting the first (least recently used) entry when
 * the cache is already full.
 */
module Lru {
  import opened Wrappers
  import opened Dict

  /** Where the entry for `k` sits, if there is one. */
  function Position<K(==), V>(es: seq<(K, V)>, k: K): (r: Option<nat>)
    ensures r.None? <==> forall i :: 0 <= i < |es| ==> es[i].0 != k
    ensures r.Some? ==> r.value < |es| && es[r.value].0 == k
  {
    if es == [] then None
    else if es[0].0 == k then Some(0)
    else match Position(es[1..], k)
      case None => None
      case Some(i) => Some(i + 1)
  }

  /** Every key is cached at most once. */
  predicate DistinctKeys<K(==), V>(es: seq<(K, V)>) {
    forall i, j :: 0 <= i < j < |es| ==> es[i].0 != es[j].0
  }

  /** With distinct keys, the entry at position `i` is what a lookup of its key finds. */
  lemma {:induction false} LookupAt<K, V>(es: seq<(K, V)>, i: nat)
    requires DistinctKeys(es) && i < |es|
    ensures Get(es, es[i].0) == Some(es[i].1)
  {
    if i > 0 {
      assert DistinctKeys(es[1..]);
      assert es[1..][i - 1] == es[i];
      LookupAt(es[1..], i - 1);
    }
  }

  /** Two key-distinct lists with the same entries answer every lookup alike. */
  lemma SameEntriesSameLookups<K, V>(a: seq<(K, V)>, b: seq<(K, V)>, k: K)
    requires DistinctKeys(a) && DistinctKeys(b)
    requires multiset(a) == multiset(b)
    ensures Get(a, k) == Get(b, k)
  {
    match Get(a, k)
    case None =>
      assert forall i :: 0 <= i < |b| ==> b[i].0 != k by {
        forall i | 0 <= i < |b| ensures b[i].0 != k {
          assert b[i] in multiset(b);
        }
      }
    case Some(v) =>
      var i :| 0 <= i < |a| && a[i] == (k, v);
      assert a[i] in multiset(a);
      var j :| 0 <= j < |b| && b[j] == a[i];
      LookupAt(b, j);
  }

  /**
   * A cache hit on the entry at position `i`: that entry becomes the most recently used
   * and every other entry keeps its relative order.
   */
  function Touch<K(==), V>(es: seq<(K, V)>, i: nat): (r: seq<(K, V)>)
    requires i < |es|
    ensures |r| == |es| && r[|r| - 1] == es[i]
    ensures r[..|r| - 1] == es[..i] + es[i + 1..]
    ensures multiset(r) == multiset(es)
  {
    var r := es[..i] + es[i + 1..] + [es[i]];
    assert es == es[..i] + [es[i]] + es[i + 1..];
    assert r[..|r| - 1] == es[..i] + es[i + 1..];
    r
  }

  /** A hit changes no cached value and keeps the keys distinct. */
  lemma TouchKeepsMap<K, V>(es: seq<(K, V)>, i: nat)
    requires DistinctKeys(es) && i < |es|
    ensures DistinctKeys(Touch(es, i))
    ensures forall k :: Get(Touch(es, i), k) == Get(es, k)
  {
    var r := Touch(es, i);
    assert forall p :: 0 <= p < i ==> r[p] == es[p];
    assert forall p :: i <= p < |es| - 1 ==> r[p] == es[p + 1];
    forall k {
      SameEntriesSameLookups(r, es, k);
    }
  }

  /**
   * A miss on key `k` with `cap` entries allowed: the new entry goes last, after the
   * least recently used entry is dropped if the cache is full.
   */
  function Admit<K(==), V>(es: seq<(K, V)>, k: K, v: V, cap: nat): (r: seq<(K, V)>)
    requires 0 < cap && |es| <= cap
    ensures 0 < |r| <= cap && r[|r| - 1] == (k, v)
    ensures |es| < cap ==> r == es + [(k, v)]
    ensures |es| == cap ==> r == es[1..] + [(k, v)]
  {
    if |es| < cap then es + [(k, v)] else es[1..] + [(k, v)]
  }

  /** Adding an entry at the end changes only the lookup of its key, and only if that key was absent. */
  lemma {:induction false} LookupAppend<K, V>(es: seq<(K, V)>, k: K, v: V, k': K)
    ensures Get(es + [(k, v)], k') == (if k' == k && Get(es, k).None? then Some(v) else Get(es, k'))
  {
    if es != [] {
      assert (es + [(k, v)])[1..] == es[1..] + [(k, v)];
      LookupAppend(es[1..], k, v, k');
    }
  }

  /**
   * Admitting a key that is not cached keeps the keys distinct, caches the new value,
   * evicts exactly the least recently used key when the cache was full, and leaves every
   * other cached value as it was.
   */
  lemma AdmitKeepsMap<K, V>(es: seq<(K, V)>, k: K, v: V, cap: nat)
    requires 0 < cap && |es| <= cap && DistinctKeys(es) && Get(es, k).None?
    ensures DistinctKeys(Admit(es, k, v, cap))
    ensures Get(Admit(es, k, v, cap), k) == Some(v)
    ensures |es| == cap ==> Get(Admit(es, k, v, cap), es[0].0).None?
    ensures forall k' :: k' != k && !(|es| == cap && k' == es[0].0) ==>
              Get(Admit(es, k, v, cap), k') == Get(es, k')
  {
    var kept := if |es| < cap then es else es[1..];
    assert Admit(es, k, v, cap) == kept + [(k, v)];
    assert DistinctKeys(kept);
    assert Get(kept, k).None?;
    forall k' ensures Get(kept, k') == (if |es| == cap && k' == es[0].0 then None else Get(es, k')) {
      if |es| == cap && k' == es[0].0 {
        assert forall i :: 0 <= i < |kept| ==> kept[i] == es[i + 1];
      }
    }
    forall k' ensures Get(kept + [(k, v)], k') == (if k' == k then Some(v) else Get(kept, k')) {
      LookupAppend(kept, k, v, k');
    }
  }
}
