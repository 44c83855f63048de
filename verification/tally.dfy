/** An insertion-ordered counting map, the JavaScript `Map` the charts
    count with: a list of (key, count) pairs whose iteration order is the
    order in which keys were first inserted. */
module Tally {

  type Tally<K> = seq<(K, nat)>

  function Keys<K>(t: Tally<K>): (r: seq<K>)
    ensures |r| == |t|
    ensures forall i :: 0 <= i < |t| ==> r[i] == t[i].0
  {
    seq(|t|, i requires 0 <= i < |t| => t[i].0)
  }

  ghost predicate DistinctKeys<K>(t: Tally<K>) {
    forall i, j :: 0 <= i < j < |t| ==> t[i].0 != t[j].0
  }

  /** `map.get(k)`, with an absent key counting as zero. */
  function Get<K(==)>(t: Tally<K>, k: K): nat {
    if |t| == 0 then 0 else if t[0].0 == k then t[0].1 else Get(t[1..], k)
  }

  function Sum<K>(t: Tally<K>): nat {
    if |t| == 0 then 0 else t[0].1 + Sum(t[1..])
  }

  /** `map.has(k) ? map.set(k, map.get(k) + 1) : map.set(k, 1)`: a known
      key keeps its place, a new one goes to the end. */
  function Bump<K(==)>(t: Tally<K>, k: K): (r: Tally<K>)
    ensures Keys(r) == if k in Keys(t) then Keys(t) else Keys(t) + [k]
  {
    if |t| == 0 then [(k, 1)]
    else if t[0].0 == k then
      var r := [(k, t[0].1 + 1)] + t[1..];
      assert Keys(t)[0] == k;
      assert Keys(r) == Keys(t);
      r
    else
      var rest := Bump(t[1..], k);
      var r := [t[0]] + rest;
      assert Keys(t) == [t[0].0] + Keys(t[1..]);
      assert Keys(r) == [t[0].0] + Keys(rest);
      r
  }

  /** Bumping adds one to the bumped key, nothing to any other, and one to
      the total. */
  lemma BumpCounts<K(!new)>(t: Tally<K>, k: K)
    ensures Get(Bump(t, k), k) == Get(t, k) + 1
    ensures forall k' :: k' != k ==> Get(Bump(t, k), k') == Get(t, k')
    ensures Sum(Bump(t, k)) == Sum(t) + 1
  {
    BumpSame(t, k);
    BumpSum(t, k);
    forall k' | k' != k
      ensures Get(Bump(t, k), k') == Get(t, k')
    {
      BumpOther(t, k, k');
    }
  }

  lemma {:induction false} BumpSame<K>(t: Tally<K>, k: K)
    ensures Get(Bump(t, k), k) == Get(t, k) + 1
  {
    if |t| > 0 && t[0].0 != k {
      BumpSame(t[1..], k);
      assert ([t[0]] + Bump(t[1..], k))[1..] == Bump(t[1..], k);
    }
  }

  lemma {:induction false} BumpOther<K>(t: Tally<K>, k: K, k': K)
    requires k' != k
    ensures Get(Bump(t, k), k') == Get(t, k')
  {
    if |t| > 0 {
      if t[0].0 == k {
        assert ([(k, t[0].1 + 1)] + t[1..])[1..] == t[1..];
      } else {
        BumpOther(t[1..], k, k');
        assert ([t[0]] + Bump(t[1..], k))[1..] == Bump(t[1..], k);
      }
    }
  }

  lemma {:induction false} BumpSum<K>(t: Tally<K>, k: K)
    ensures Sum(Bump(t, k)) == Sum(t) + 1
  {
    if |t| > 0 {
      if t[0].0 == k {
        assert ([(k, t[0].1 + 1)] + t[1..])[1..] == t[1..];
      } else {
        BumpSum(t[1..], k);
        assert ([t[0]] + Bump(t[1..], k))[1..] == Bump(t[1..], k);
      }
    }
  }

  /** Keys stay distinct: a key is appended only when it is absent. */
  lemma KeysDistinctAfter<K>(t: Tally<K>, r: Tally<K>, k: K)
    requires DistinctKeys(t)
    requires Keys(r) == if k in Keys(t) then Keys(t) else Keys(t) + [k]
    ensures DistinctKeys(r)
  {
    assert forall i :: 0 <= i < |r| ==> r[i].0 == Keys(r)[i];
  }

  /** The keys after inserting `k` are the old ones and `k`. */
  lemma KeysAfter<K>(t: Tally<K>, r: Tally<K>, k: K)
    requires Keys(r) == if k in Keys(t) then Keys(t) else Keys(t) + [k]
    ensures forall x :: x in Keys(r) <==> x in Keys(t) || x == k
    ensures |t| <= |r| && Keys(r)[..|t|] == Keys(t)
  {
  }

  lemma BumpKeys<K>(t: Tally<K>, k: K)
    ensures forall x :: x in Keys(Bump(t, k)) <==> x in Keys(t) || x == k
  {
    KeysAfter(t, Bump(t, k), k);
  }

  lemma PadZeroKeys<K(!new)>(t: Tally<K>, k: K)
    ensures forall x :: x in Keys(PadZero(t, k)) <==> x in Keys(t) || x == k
  {
    KeysAfter(t, PadZero(t, k), k);
  }

  /** `if (!map.has(k)) map.set(k, 0)`: adds a zero entry at the end for an
      absent key and never overwrites a count. */
  function PadZero<K(==,!new)>(t: Tally<K>, k: K): (r: Tally<K>)
    ensures Keys(r) == if k in Keys(t) then Keys(t) else Keys(t) + [k]
    ensures forall k' :: Get(r, k') == Get(t, k')
    ensures Sum(r) == Sum(t)
    ensures forall i :: 0 <= i < |t| ==> r[i] == t[i]
  {
    if k in Keys(t) then t
    else
      AppendZero(t, k);
      t + [(k, 0)]
  }

  lemma {:induction false} AppendZero<K>(t: Tally<K>, k: K)
    ensures forall k' :: Get(t + [(k, 0)], k') == Get(t, k')
    ensures Sum(t + [(k, 0)]) == Sum(t)
  {
    if |t| > 0 {
      assert (t + [(k, 0)])[1..] == t[1..] + [(k, 0)];
      AppendZero(t[1..], k);
    }
  }

  /** With distinct keys, each entry holds the count `Get` reports. */
  lemma {:induction false} EntryIsGet<K>(t: Tally<K>, i: int)
    requires DistinctKeys(t) && 0 <= i < |t|
    ensures t[i].1 == Get(t, t[i].0)
  {
    if i > 0 {
      EntryIsGet(t[1..], i - 1);
    }
  }

  /** A key that was never inserted counts zero. */
  lemma {:induction false} AbsentIsZero<K>(t: Tally<K>, k: K)
    requires k !in Keys(t)
    ensures Get(t, k) == 0
  {
    if |t| > 0 {
      assert Keys(t) == [t[0].0] + Keys(t[1..]);
      AbsentIsZero(t[1..], k);
    }
  }
}
