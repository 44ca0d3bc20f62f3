/** The parser's intermediate mapping `grouped_conditions`: an insertion-
    ordered dictionary from group name to a bucket, read and written the way
    a Python `defaultdict(dict)` is. */
module Buckets {
  import opened Wrappers
  import opened FilterTree

  /** What the parser records about one group name: the raw (not yet
      normalised) conjunction and the parent, both present only once the
      group itself has been declared, and the condition payloads collected
      for it, in collection order. */
  datatype Bucket = Bucket(
    conjunction: Option<string>,
    memberOf: Option<string>,
    conditions: seq<Payload>)

  /** What `defaultdict(dict)` produces for a name seen for the first time. */
  const EmptyBucket: Bucket := Bucket(None, None, [])

  /** Association list in insertion order. */
  type Mapping = seq<(string, Bucket)>

  /** The names of an association list keyed by strings, in order. */
  function Keys<V>(m: seq<(string, V)>): (ks: seq<string>)
    ensures |ks| == |m|
    ensures forall i :: 0 <= i < |m| ==> ks[i] == m[i].0
  {
    seq(|m|, i requires 0 <= i < |m| => m[i].0)
  }

  predicate Distinct<T(==)>(s: seq<T>) {
    forall i, j :: 0 <= i < j < |s| ==> s[i] != s[j]
  }

  /** Appending a new element keeps a sequence free of repetitions. */
  lemma {:induction false} DistinctSnoc<T>(s: seq<T>, x: T)
    requires Distinct(s) && x !in s
    ensures Distinct(s + [x])
  {
    forall i, j | 0 <= i < j < |s| + 1
      ensures (s + [x])[i] != (s + [x])[j]
    {
      if j == |s| {
        assert s[i] in s;
      }
    }
  }

  /** `m[k]` on a defaultdict: the bucket stored under `k`, or an empty one. */
  function Get(m: Mapping, k: string): (b: Bucket)
    ensures k !in Keys(m) ==> b == EmptyBucket
  {
    if m == [] then EmptyBucket
    else if m[0].0 == k then m[0].1
    else
      assert Keys(m[1..]) == Keys(m)[1..];
      Get(m[1..], k)
  }

  /** With distinct keys, reading a stored key yields its bucket. */
  lemma {:induction false} GetAt(m: Mapping, i: nat)
    requires i < |m| && Distinct(Keys(m))
    ensures Get(m, m[i].0) == m[i].1
  {
    if i > 0 {
      assert Keys(m)[0] != Keys(m)[i];
      assert Keys(m[1..]) == Keys(m)[1..];
      GetAt(m[1..], i - 1);
    }
  }

  /** `m[k] = b`: replaces the bucket in place when `k` is present, otherwise
      appends `k` at the end of the insertion order.  Its properties are
      the lemmas below, gathered in PutFacts. */
  function Put(m: Mapping, k: string, b: Bucket): Mapping {
    if m == [] then [(k, b)]
    else if m[0].0 == k then [(k, b)] + m[1..]
    else [m[0]] + Put(m[1..], k, b)
  }

  lemma {:induction false} PutKeys(m: Mapping, k: string, b: Bucket)
    ensures Keys(Put(m, k, b)) == if k in Keys(m) then Keys(m) else Keys(m) + [k]
  {
    var r := Put(m, k, b);
    if m == [] {
      assert Keys(r) == [k];
    } else if m[0].0 == k {
      assert Keys(r) == Keys(m);
    } else {
      assert Keys(m[1..]) == Keys(m)[1..];
      PutKeys(m[1..], k, b);
      assert r[1..] == Put(m[1..], k, b);
      assert Keys(r) == [m[0].0] + Keys(Put(m[1..], k, b));
      assert Keys(m) == [m[0].0] + Keys(m[1..]);
      if k in Keys(m[1..]) {
        assert k in Keys(m);
      } else {
        assert k !in Keys(m);
        assert [m[0].0] + (Keys(m[1..]) + [k]) == Keys(m) + [k];
      }
    }
  }

  lemma {:induction false} PutDistinct(m: Mapping, k: string, b: Bucket)
    requires Distinct(Keys(m))
    ensures Distinct(Keys(Put(m, k, b)))
  {
    PutKeys(m, k, b);
    if k !in Keys(m) {
      DistinctSnoc(Keys(m), k);
    }
  }

  lemma {:induction false} PutGetSame(m: Mapping, k: string, b: Bucket)
    ensures Get(Put(m, k, b), k) == b
  {
    if m != [] && m[0].0 != k {
      PutGetSame(m[1..], k, b);
      assert Put(m, k, b)[1..] == Put(m[1..], k, b);
    }
  }

  lemma {:induction false} PutGetOther(m: Mapping, k: string, b: Bucket, k': string)
    requires k' != k
    ensures Get(Put(m, k, b), k') == Get(m, k')
  {
    var r := Put(m, k, b);
    if m == [] {
      assert r[1..] == [];
    } else if m[0].0 == k {
      assert r[1..] == m[1..];
    } else if m[0].0 != k' {
      PutGetOther(m[1..], k, b, k');
      assert r[1..] == Put(m[1..], k, b);
    }
  }

  /** Everything callers need to know about `Put`: the keys stay in
      insertion order with `k` appended if new, distinct keys stay
      distinct, `k` now reads `b`, every other key reads as before. */
  lemma {:induction false} PutFacts(m: Mapping, k: string, b: Bucket)
    ensures Keys(Put(m, k, b)) == if k in Keys(m) then Keys(m) else Keys(m) + [k]
    ensures Distinct(Keys(m)) ==> Distinct(Keys(Put(m, k, b)))
    ensures Get(Put(m, k, b), k) == b
    ensures forall k' :: k' != k ==> Get(Put(m, k, b), k') == Get(m, k')
  {
    PutKeys(m, k, b);
    if Distinct(Keys(m)) {
      PutDistinct(m, k, b);
    }
    PutGetSame(m, k, b);
    forall k' | k' != k
      ensures Get(Put(m, k, b), k') == Get(m, k')
    {
      PutGetOther(m, k, b, k');
    }
  }

  /** Total number of condition payloads over all buckets. */
  function ConditionCount(m: Mapping): nat {
    if m == [] then 0 else |m[0].1.conditions| + ConditionCount(m[1..])
  }

  /** Overwriting one bucket changes the total by the difference in that
      bucket's condition count, and by nothing else. */
  lemma {:induction false} PutConditionCount(m: Mapping, k: string, b: Bucket)
    ensures ConditionCount(Put(m, k, b)) + |Get(m, k).conditions| == ConditionCount(m) + |b.conditions|
  {
    if m != [] && m[0].0 != k {
      PutConditionCount(m[1..], k, b);
      assert Put(m, k, b)[1..] == Put(m[1..], k, b);
    }
  }

  /** Writing an existing key replaces its entry where it stands. */
  lemma {:induction false} PutPresent(m: Mapping, i: nat, b: Bucket)
    requires i < |m| && Distinct(Keys(m))
    ensures Put(m, m[i].0, b) == m[i := (m[i].0, b)]
  {
    if i > 0 {
      assert m[0].0 != m[i].0 by { assert Keys(m)[0] != Keys(m)[i]; }
      assert Keys(m[1..]) == Keys(m)[1..];
      PutPresent(m[1..], i - 1, b);
      assert [m[0]] + m[1..][i - 1 := (m[i].0, b)] == m[i := (m[i].0, b)];
    }
  }

  /** Writing a new key appends it at the end of the insertion order. */
  lemma {:induction false} PutAbsent(m: Mapping, k: string, b: Bucket)
    requires k !in Keys(m)
    ensures Put(m, k, b) == m + [(k, b)]
  {
    if m != [] {
      assert Keys(m)[0] != k;
      assert Keys(m[1..]) == Keys(m)[1..];
      PutAbsent(m[1..], k, b);
      assert [m[0]] + (m[1..] + [(k, b)]) == m + [(k, b)];
    }
  }
}
