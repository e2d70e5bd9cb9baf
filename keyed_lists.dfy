/**
 * The list operations that the hooks and the server apply to their record
 * lists: `filter` by key, `map` that swaps the records carrying a key,
 * `findIndex`/`find` by key, and `filter` by membership of the key in a list
 * of keys. A record's key is read through the projection `key`.
 */
module KeyedLists {
  import opened Wrappers

  /** `s.filter(x => key(x) !== k)`: every element whose key is not `k`, in order. */
  function RemoveKey<T(!new), K(==)>(s: seq<T>, key: T -> K, k: K): (r: seq<T>)
    ensures |r| <= |s|
    ensures forall x :: x in r <==> x in s && key(x) != k
  {
    if s == [] then []
    else if key(s[0]) == k then RemoveKey(s[1..], key, k)
    else [s[0]] + RemoveKey(s[1..], key, k)
  }

  /** `s.map(x => key(x) === k ? y : x)`. */
  function ReplaceKey<T, K(==)>(s: seq<T>, key: T -> K, k: K, y: T): (r: seq<T>)
    ensures |r| == |s|
    ensures forall i :: 0 <= i < |s| ==> r[i] == if key(s[i]) == k then y else s[i]
  {
    if s == [] then []
    else [if key(s[0]) == k then y else s[0]] + ReplaceKey(s[1..], key, k, y)
  }

  /** `s.findIndex(x => key(x) === k)`, with None for -1. */
  function IndexOfKey<T, K(==)>(s: seq<T>, key: T -> K, k: K): (r: Option<nat>)
    ensures r.Some? ==> r.value < |s| && key(s[r.value]) == k
    ensures r.Some? ==> forall i :: 0 <= i < r.value ==> key(s[i]) != k
    ensures r.None? <==> forall i :: 0 <= i < |s| ==> key(s[i]) != k
  {
    if s == [] then None
    else if key(s[0]) == k then Some(0)
    else match IndexOfKey(s[1..], key, k)
      case None => None
      case Some(i) => Some(i + 1)
  }

  /** `s.find(x => key(x) === k)`: the first element with key `k`. */
  function FindKey<T, K(==)>(s: seq<T>, key: T -> K, k: K): (r: Option<T>)
  {
    match IndexOfKey(s, key, k)
    case None => None
    case Some(i) => Some(s[i])
  }

  /** `s.filter(x => ks.includes(key(x)))`: the elements whose key is listed, in the order of `s`. */
  function KeepKeysIn<T(!new), K(==)>(s: seq<T>, key: T -> K, ks: seq<K>): (r: seq<T>)
    ensures |r| <= |s|
    ensures forall x :: x in r <==> x in s && key(x) in ks
  {
    if s == [] then []
    else if key(s[0]) in ks then [s[0]] + KeepKeysIn(s[1..], key, ks)
    else KeepKeysIn(s[1..], key, ks)
  }

  /** Filtering keeps every copy of a listed element and no copy of any other. */
  lemma {:induction false} KeepKeysInCounts<T(!new), K>(s: seq<T>, key: T -> K, ks: seq<K>)
    ensures forall x :: multiset(KeepKeysIn(s, key, ks))[x] == if key(x) in ks then multiset(s)[x] else 0
    decreases |s|
  {
    if s != [] {
      KeepKeysInCounts(s[1..], key, ks);
      assert s == [s[0]] + s[1..];
      assert multiset(s) == multiset([s[0]]) + multiset(s[1..]);
    }
  }

  /** Filtering keeps every element exactly when every key is listed. */
  lemma {:induction false} KeepKeysInKeepsAll<T(!new), K>(s: seq<T>, key: T -> K, ks: seq<K>)
    ensures |KeepKeysIn(s, key, ks)| == |s| <==> forall i :: 0 <= i < |s| ==> key(s[i]) in ks
    decreases |s|
  {
    if s != [] {
      KeepKeysInKeepsAll(s[1..], key, ks);
      assert forall i :: 1 <= i < |s| ==> s[i] == s[1..][i - 1];
    }
  }

  /** `s.filter((_, i) => i !== index)` */
  function DropIndex<T>(s: seq<T>, index: int): (r: seq<T>)
    decreases |s|
  {
    if s == [] then [] else (if index == 0 then [] else [s[0]]) + DropIndex(s[1..], index - 1)
  }

  /** Dropping an index in range removes exactly that element, keeping the others in order. */
  lemma {:induction false} DropIndexInRange<T>(s: seq<T>, index: int)
    requires 0 <= index < |s|
    ensures DropIndex(s, index) == s[..index] + s[index + 1..]
    decreases |s|
  {
    if index == 0 {
      DropIndexOutOfRange(s[1..], -1);
    } else {
      DropIndexInRange(s[1..], index - 1);
      assert s[..index] == [s[0]] + s[1..][..index - 1];
      assert s[index + 1..] == s[1..][index..];
    }
  }

  /** An index out of range drops nothing. */
  lemma {:induction false} DropIndexOutOfRange<T>(s: seq<T>, index: int)
    requires index < 0 || index >= |s|
    ensures DropIndex(s, index) == s
    decreases |s|
  {
    if s != [] {
      DropIndexOutOfRange(s[1..], index - 1);
    }
  }

  /** `a` can be obtained from `b` by deleting elements: same order, nothing new. */
  ghost predicate Subsequence<T>(a: seq<T>, b: seq<T>)
    decreases |b|
  {
    if a == [] then true
    else if b == [] then false
    else (a[0] == b[0] && Subsequence(a[1..], b[1..])) || Subsequence(a, b[1..])
  }

  /** How many elements of `s` carry key `k`. */
  function CountKey<T, K(==)>(s: seq<T>, key: T -> K, k: K): nat
  {
    if s == [] then 0 else (if key(s[0]) == k then 1 else 0) + CountKey(s[1..], key, k)
  }

  lemma {:induction false} SubsequenceRefl<T>(s: seq<T>)
    ensures Subsequence(s, s)
    decreases |s|
  {
    if s != [] { SubsequenceRefl(s[1..]); }
  }

  /** Filtering keeps the relative order of what it keeps. */
  lemma {:induction false} RemoveKeyIsSubsequence<T(!new), K>(s: seq<T>, key: T -> K, k: K)
    ensures Subsequence(RemoveKey(s, key, k), s)
    decreases |s|
  {
    if s != [] {
      RemoveKeyIsSubsequence(s[1..], key, k);
      if key(s[0]) != k {
        assert RemoveKey(s, key, k) == [s[0]] + RemoveKey(s[1..], key, k);
      } else if RemoveKey(s, key, k) != [] {
        assert RemoveKey(s, key, k) == RemoveKey(s[1..], key, k);
      }
    }
  }

  lemma {:induction false} KeepKeysInIsSubsequence<T(!new), K>(s: seq<T>, key: T -> K, ks: seq<K>)
    ensures Subsequence(KeepKeysIn(s, key, ks), s)
    decreases |s|
  {
    if s != [] {
      KeepKeysInIsSubsequence(s[1..], key, ks);
      if key(s[0]) in ks {
        assert KeepKeysIn(s, key, ks) == [s[0]] + KeepKeysIn(s[1..], key, ks);
      } else if KeepKeysIn(s, key, ks) != [] {
        assert KeepKeysIn(s, key, ks) == KeepKeysIn(s[1..], key, ks);
      }
    }
  }

  /** Filtering distributes over concatenation: together with the singleton
      cases this pins the result down, including its order. */
  lemma {:induction false} RemoveKeyAppend<T(!new), K>(a: seq<T>, b: seq<T>, key: T -> K, k: K)
    ensures RemoveKey(a + b, key, k) == RemoveKey(a, key, k) + RemoveKey(b, key, k)
    decreases |a|
  {
    if a == [] {
      assert a + b == b;
    } else {
      assert (a + b)[1..] == a[1..] + b;
      RemoveKeyAppend(a[1..], b, key, k);
    }
  }

  lemma {:induction false} KeepKeysInAppend<T(!new), K>(a: seq<T>, b: seq<T>, key: T -> K, ks: seq<K>)
    ensures KeepKeysIn(a + b, key, ks) == KeepKeysIn(a, key, ks) + KeepKeysIn(b, key, ks)
    decreases |a|
  {
    if a == [] {
      assert a + b == b;
    } else {
      assert (a + b)[1..] == a[1..] + b;
      KeepKeysInAppend(a[1..], b, key, ks);
    }
  }

  lemma KeepKeysInSingleton<T(!new), K>(x: T, key: T -> K, ks: seq<K>)
    ensures KeepKeysIn([x], key, ks) == if key(x) in ks then [x] else []
  {
    assert [x][1..] == [];
  }

  lemma RemoveKeySingleton<T(!new), K>(x: T, key: T -> K, k: K)
    ensures RemoveKey([x], key, k) == if key(x) == k then [] else [x]
  {
    assert [x][1..] == [];
  }

  /** What is removed plus what is kept is everything. */
  lemma {:induction false} RemoveKeyCount<T(!new), K>(s: seq<T>, key: T -> K, k: K)
    ensures |RemoveKey(s, key, k)| + CountKey(s, key, k) == |s|
    decreases |s|
  {
    if s != [] { RemoveKeyCount(s[1..], key, k); }
  }

  lemma {:induction false} CountKeyZero<T, K>(s: seq<T>, key: T -> K, k: K)
    ensures CountKey(s, key, k) == 0 <==> forall i :: 0 <= i < |s| ==> key(s[i]) != k
    decreases |s|
  {
    if s != [] {
      CountKeyZero(s[1..], key, k);
      assert forall i :: 1 <= i < |s| ==> s[i] == s[1..][i - 1];
    }
  }

  /** The length stays the same exactly when no element carries the key. */
  lemma RemoveKeyLengthUnchanged<T(!new), K>(s: seq<T>, key: T -> K, k: K)
    ensures |RemoveKey(s, key, k)| == |s| <==> forall i :: 0 <= i < |s| ==> key(s[i]) != k
  {
    RemoveKeyCount(s, key, k);
    CountKeyZero(s, key, k);
  }

  /** Removing an absent key changes nothing. */
  lemma {:induction false} RemoveKeyAbsent<T(!new), K>(s: seq<T>, key: T -> K, k: K)
    requires forall i :: 0 <= i < |s| ==> key(s[i]) != k
    ensures RemoveKey(s, key, k) == s
    decreases |s|
  {
    if s != [] {
      assert forall i :: 0 <= i < |s[1..]| ==> key(s[1..][i]) != k by {
        forall i | 0 <= i < |s[1..]| ensures key(s[1..][i]) != k { assert s[1..][i] == s[i + 1]; }
      }
      RemoveKeyAbsent(s[1..], key, k);
    }
  }

  /** Removing twice is removing once. */
  lemma RemoveKeyIdempotent<T(!new), K>(s: seq<T>, key: T -> K, k: K)
    ensures RemoveKey(RemoveKey(s, key, k), key, k) == RemoveKey(s, key, k)
  {
    var r := RemoveKey(s, key, k);
    assert forall i :: 0 <= i < |r| ==> key(r[i]) != k by {
      forall i | 0 <= i < |r| ensures key(r[i]) != k { assert r[i] in r; }
    }
    RemoveKeyAbsent(r, key, k);
  }

  /** Replacing an absent key changes nothing. */
  lemma ReplaceKeyAbsent<T, K>(s: seq<T>, key: T -> K, k: K, y: T)
    requires forall i :: 0 <= i < |s| ==> key(s[i]) != k
    ensures ReplaceKey(s, key, k, y) == s
  {
  }

  /** When the new record carries the key itself, replacing again changes nothing. */
  lemma ReplaceKeyIdempotent<T, K>(s: seq<T>, key: T -> K, k: K, y: T)
    requires key(y) == k
    ensures ReplaceKey(ReplaceKey(s, key, k, y), key, k, y) == ReplaceKey(s, key, k, y)
  {
  }

  /** `find` returns the element at `findIndex`: the first one carrying the key. */
  lemma FindKeyFirst<T, K>(s: seq<T>, key: T -> K, k: K)
    ensures FindKey(s, key, k).None? <==> forall i :: 0 <= i < |s| ==> key(s[i]) != k
    ensures FindKey(s, key, k).Some? ==>
      exists i :: 0 <= i < |s| && FindKey(s, key, k).value == s[i] && key(s[i]) == k &&
        forall j :: 0 <= j < i ==> key(s[j]) != k
  {
    match IndexOfKey(s, key, k)
    case None =>
    case Some(i) => assert FindKey(s, key, k).value == s[i];
  }

  /** A record appended under a key nobody else carries is what `find` returns for that key. */
  lemma {:induction false} FindKeyAppendFresh<T, K>(s: seq<T>, key: T -> K, y: T)
    requires forall i :: 0 <= i < |s| ==> key(s[i]) != key(y)
    ensures FindKey(s + [y], key, key(y)) == Some(y)
  {
    var t := s + [y];
    assert key(t[|s|]) == key(y);
    assert forall i :: 0 <= i < |s| ==> t[i] == s[i];
  }

  /** Swapping in a record that carries the key itself leaves every position's key as it was. */
  lemma ReplaceKeyKeepsKeys<T, K>(s: seq<T>, key: T -> K, k: K, y: T)
    requires key(y) == k
    ensures forall i :: 0 <= i < |s| ==> key(ReplaceKey(s, key, k, y)[i]) == key(s[i])
  {
  }
}
